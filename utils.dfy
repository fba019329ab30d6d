/** js/utils.js: initials, the relative-time tiers of formatTime and
    formatDate, tab switching and the conversation search filter. */
module Utils {
  import opened Wrappers
  import JsStrings
  import Decimal

  /** The upper-cased first character of a name, or nothing when the name
      is absent or empty (both falsy in JavaScript). */
  function Initial(name: Option<string>): (r: string)
    ensures |r| <= 1
    ensures r == [] <==> name.None? || name.value == []
    ensures r != [] ==> r[0] == JsStrings.UpperChar(name.value[0])
  {
    if name.Some? && name.value != [] then [JsStrings.UpperChar(name.value[0])] else []
  }

  predicate Present(name: Option<string>) {
    name.Some? && name.value != []
  }

  /** getInitials: the first name's initial followed by the last name's,
      and '?' when neither name gives one. */
  function GetInitials(firstname: Option<string>, lastname: Option<string>): (r: string)
    ensures 1 <= |r| <= 2
    ensures Present(firstname) ==> r[0] == JsStrings.UpperChar(firstname.value[0])
    ensures Present(firstname) && Present(lastname) ==> |r| == 2 && r[1] == JsStrings.UpperChar(lastname.value[0])
    ensures Present(firstname) && !Present(lastname) ==> |r| == 1
    ensures !Present(firstname) && Present(lastname) ==> r == [JsStrings.UpperChar(lastname.value[0])]
    ensures !Present(firstname) && !Present(lastname) ==> r == "?"
  {
    var initials := Initial(firstname) + Initial(lastname);
    if initials == [] then "?" else initials
  }

  /** '?' is also what a first name starting with '?' alone yields, so
      '?' does not by itself mean that both names were missing. */
  lemma QuestionMarkIsAmbiguous()
    ensures GetInitials(Some("?"), None) == GetInitials(None, None)
  {
    assert Initial(Some("?")) == "?";
  }

  const MINUTE: int := 60000
  const HOUR: int := 3600000
  const DAY: int := 86400000
  const WEEK: int := 604800000

  const DAYS: seq<string> := ["Dim", "Lun", "Mar", "Mer", "Jeu", "Ven", "Sam"]

  /** A piece of a formatted label: literal text, or a rendering of the
      timestamp that the fr-FR locale produces (abstracted). */
  datatype Piece =
    | Lit(text: string)
    | LocaleClock(time: int)     // toLocaleTimeString, hour and minute
    | LocaleDayMonth(time: int)  // toLocaleDateString, day and month
    | LocaleLongDate(time: int)  // toLocaleDateString, day, month name, year, hour, minute

  /** Date.prototype.getDay for a time in milliseconds since the epoch and
      the local offset from UTC in milliseconds; the epoch fell on a
      Thursday (4). Division by a positive constant rounds down here, as
      the calendar does for times before the epoch. */
  function Weekday(time: int, offset: int): (d: int)
    ensures 0 <= d < 7
  {
    ((time + offset) / DAY + 4) % 7
  }

  /** One day later is the next day of the week. */
  lemma NextDay(time: int, offset: int)
    ensures Weekday(time + DAY, offset) == (Weekday(time, offset) + 1) % 7
  {
    assert (time + DAY + offset) / DAY == (time + offset) / DAY + 1;
  }

  /** The label of the minutes tier reads back as the whole number of
      minutes elapsed, between 1 and 59 and written without a leading
      zero, followed by " min". */
  predicate MinutesLabel(text: string, diff: int) {
    && |text| > 4
    && text[|text| - 4..] == " min"
    && text[0] != '0'
    && Decimal.AllDigits(text[..|text| - 4])
    && var m := Decimal.ParseNat(text[..|text| - 4]);
       1 <= m <= 59 && m * MINUTE <= diff < (m + 1) * MINUTE
  }

  /** formatTime: '' for a missing timestamp, then by elapsed time (now
      minus the timestamp): just now, minutes, clock time, weekday, date. */
  function FormatTime(timestamp: Option<int>, now: int, offset: int): (r: seq<Piece>)
    ensures r == [] <==> timestamp.None?
    ensures timestamp.Some? && now - timestamp.value < MINUTE ==> r == [Lit("À l'instant")]
    ensures timestamp.Some? && MINUTE <= now - timestamp.value < HOUR ==>
              |r| == 1 && r[0].Lit? && MinutesLabel(r[0].text, now - timestamp.value)
    ensures timestamp.Some? && HOUR <= now - timestamp.value < DAY ==> r == [LocaleClock(timestamp.value)]
    ensures timestamp.Some? && DAY <= now - timestamp.value < WEEK ==>
              |r| == 1 && r[0].Lit? && r[0].text in DAYS && r[0].text == DAYS[Weekday(timestamp.value, offset)]
    ensures timestamp.Some? && WEEK <= now - timestamp.value ==> r == [LocaleDayMonth(timestamp.value)]
  {
    match timestamp
    case None => []
    case Some(time) =>
      var diff := now - time;
      if diff < MINUTE then [Lit("À l'instant")]
      else if diff < HOUR then [Lit(MinutesText(diff))]
      else if diff < DAY then [LocaleClock(time)]
      else if diff < WEEK then [Lit(DAYS[Weekday(time, offset)])]
      else [LocaleDayMonth(time)]
  }

  /** `${Math.floor(diff / 60000)} min`. */
  function MinutesText(diff: int): (text: string)
    requires MINUTE <= diff < HOUR
    ensures MinutesLabel(text, diff)
  {
    var m := diff / MINUTE;
    var digits := Decimal.NatToString(m);
    var text := digits + " min";
    assert text[..|text| - 4] == digits && text[|text| - 4..] == " min";
    assert text[0] == digits[0];
    Decimal.ParseNatToString(m);
    text
  }

  /** formatDate: '' for a missing timestamp; today and yesterday are
      named, with the clock time; anything older gets the long date. */
  function FormatDate(timestamp: Option<int>, now: int): (r: seq<Piece>)
    ensures r == [] <==> timestamp.None?
    ensures timestamp.Some? && now - timestamp.value < DAY ==>
              r == [Lit("Aujourd'hui à "), LocaleClock(timestamp.value)]
    ensures timestamp.Some? && DAY <= now - timestamp.value < 2 * DAY ==>
              r == [Lit("Hier à "), LocaleClock(timestamp.value)]
    ensures timestamp.Some? && 2 * DAY <= now - timestamp.value ==> r == [LocaleLongDate(timestamp.value)]
  {
    match timestamp
    case None => []
    case Some(time) =>
      var diff := now - time;
      if diff < DAY then [Lit("Aujourd'hui à "), LocaleClock(time)]
      else if diff < 172800000 then [Lit("Hier à "), LocaleClock(time)]
      else [LocaleLongDate(time)]
  }

  /** Within the last day (but not the last hour) the conversation list
      and the post header show the same clock time. */
  lemma ClockTiersAgree(time: int, now: int, offset: int)
    requires HOUR <= now - time < DAY
    ensures FormatTime(Some(time), now, offset) == [FormatDate(Some(time), now)[1]]
  {
  }

  const TABS: seq<string> := ["messages", "posts", "admin"]
  const TAB_CONTAINERS: seq<string> := ["messages-container", "posts-container", "admin-container"]

  /** Container j is the one named after the tab. */
  predicate ContainerShown(tabName: string, j: int)
    requires 0 <= j < |TAB_CONTAINERS|
  {
    TAB_CONTAINERS[j] == tabName + "-container"
  }

  lemma AppendCancel(a: string, b: string, suffix: string)
    requires a + suffix == b + suffix
    ensures a == b
  {
    assert a == (a + suffix)[..|a|];
    assert b == (b + suffix)[..|b|];
  }

  /** switchTab shows the container of a known tab and nothing else, and
      hides all three containers for any other tab name. */
  lemma {:induction false} ShownContainers(tabName: string)
    ensures forall j :: 0 <= j < |TABS| ==> (ContainerShown(tabName, j) <==> TABS[j] == tabName)
    ensures tabName !in TABS ==> forall j :: 0 <= j < |TAB_CONTAINERS| ==> !ContainerShown(tabName, j)
  {
    forall j | 0 <= j < |TABS| ensures ContainerShown(tabName, j) <==> TABS[j] == tabName {
      assert TAB_CONTAINERS[j] == TABS[j] + "-container";
      if ContainerShown(tabName, j) {
        AppendCancel(tabName, TABS[j], "-container");
      }
    }
  }

  datatype TabLoad = NoLoad | LoadPosts | LoadAdminPanel

  /** The data switchTab loads: posts for the posts tab, the admin panel
      for the admin tab and only for a current user whose role is admin. */
  function TabLoadFor(tabName: string, currentRole: Option<string>): (r: TabLoad)
    ensures r == LoadPosts <==> tabName == "posts"
    ensures r == LoadAdminPanel <==> tabName == "admin" && currentRole == Some("admin")
  {
    if tabName == "posts" then LoadPosts
    else if tabName == "admin" && currentRole == Some("admin") then LoadAdminPanel
    else NoLoad
  }

  /** The tab bar: the data-tab of every .tab-btn in document order, which
      buttons carry the active styling, and which of the three containers
      carry the 'hidden' class. */
  class TabBar {
    const tabs: seq<string>
    const active: array<bool>
    const hidden: array<bool>

    ghost predicate Valid()
      reads this
    {
      active.Length == |tabs| && hidden.Length == |TAB_CONTAINERS| && active != hidden
    }

    constructor (tabs: seq<string>)
      ensures Valid() && this.tabs == tabs
      ensures fresh(active) && fresh(hidden)
    {
      this.tabs := tabs;
      active := new bool[|tabs|];
      hidden := new bool[|TAB_CONTAINERS|];
    }

    /** switchTab: exactly the buttons of the chosen tab become active,
        exactly the container named after it is shown, and the data to
        load is chosen. */
    method SwitchTab(tabName: string, currentRole: Option<string>) returns (load: TabLoad)
      requires Valid()
      modifies active, hidden
      ensures forall i :: 0 <= i < active.Length ==> active[i] == (tabs[i] == tabName)
      ensures forall j :: 0 <= j < hidden.Length ==> hidden[j] == !ContainerShown(tabName, j)
      ensures load == TabLoadFor(tabName, currentRole)
    {
      for i := 0 to active.Length
        invariant forall k :: 0 <= k < i ==> active[k] == (tabs[k] == tabName)
      {
        active[i] := tabs[i] == tabName;
      }
      for j := 0 to hidden.Length
        invariant forall k :: 0 <= k < j ==> hidden[k] == !ContainerShown(tabName, k)
        invariant forall k :: 0 <= k < active.Length ==> active[k] == (tabs[k] == tabName)
      {
        hidden[j] := TAB_CONTAINERS[j] != tabName + "-container";
      }
      load := TabLoadFor(tabName, currentRole);
    }
  }

  /** The filter both search boxes apply: the lower-cased text contains
      the lower-cased query. */
  predicate MatchesQuery(text: string, query: string): (b: bool)
    ensures b <==> exists i :: JsStrings.OccursAt(JsStrings.ToLower(text), JsStrings.ToLower(query), i)
  {
    JsStrings.Contains(JsStrings.ToLower(text), JsStrings.ToLower(query))
  }

  /** Case does not matter to the filter: lower-casing the text or the
      query first changes nothing. */
  lemma {:induction false} MatchesQueryIgnoresCase(text: string, query: string)
    ensures MatchesQuery(JsStrings.ToLower(text), JsStrings.ToLower(query)) == MatchesQuery(text, query)
  {
    JsStrings.ToLowerIdempotent(text);
    JsStrings.ToLowerIdempotent(query);
  }

  /** An empty query matches every text. */
  lemma EmptyQueryMatches(text: string)
    ensures MatchesQuery(text, "")
  {
    assert JsStrings.ToLower("") == "";
    JsStrings.ContainsEmpty(JsStrings.ToLower(text));
  }

  /** searchConversations: every item of the conversation list is shown
      ('') when its text matches the query and hidden ('none') otherwise. */
  method SearchConversations(texts: seq<string>, display: array<string>, query: string)
    requires display.Length == |texts|
    modifies display
    ensures forall i :: 0 <= i < |texts| ==> display[i] == (if MatchesQuery(texts[i], query) then "" else "none")
  {
    var lowerQuery := JsStrings.ToLower(query);
    for i := 0 to |texts|
      invariant forall k :: 0 <= k < i ==> display[k] == (if MatchesQuery(texts[k], query) then "" else "none")
    {
      var text := JsStrings.ToLower(texts[i]);
      display[i] := if JsStrings.Contains(text, lowerQuery) then "" else "none";
    }
  }
}

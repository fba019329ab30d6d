/** js/auth.js: the sign-in / sign-up mode switch, the checks of the auth
    form, loading or creating the profile of a signed-in user, and the
    automatic opening of a first conversation for regular users. */
module Auth {
  import opened Wrappers
  import JsStrings
  import Messages

  /** A row of the users table. */
  datatype User = User(id: string, email: string, firstname: string, lastname: string, role: string)

  /** The texts of the auth screen in one mode. */
  datatype AuthModeView = AuthModeView(
    signupFieldsHidden: bool, subtitle: string, button: string, switchText: string, switchLink: string)

  function ModeView(isSignupMode: bool): (v: AuthModeView)
    ensures v.signupFieldsHidden <==> !isSignupMode
    ensures v.button == (if isSignupMode then "S'inscrire" else "Se connecter")
  {
    if isSignupMode then
      AuthModeView(false, "Créez votre compte", "S'inscrire", "Déjà un compte ?", "Se connecter")
    else
      AuthModeView(true, "Bon retour parmi nous", "Se connecter", "Pas encore de compte ?", "S'inscrire")
  }

  /** The switch link always names the action of the other mode. */
  lemma SwitchLinkNamesOtherMode(isSignupMode: bool)
    ensures ModeView(isSignupMode).switchLink == ModeView(!isSignupMode).button
    ensures ModeView(isSignupMode) != ModeView(!isSignupMode)
  {
  }

  /** What submitting the auth form does. */
  datatype AuthAction =
    | MissingCredentials
    | MissingNames
    | SignUp(email: string, password: string, firstname: string, lastname: string)
    | SignIn(email: string, password: string)

  /** The submit handler's checks: the trimmed email and the raw password
      are required; in sign-up mode the trimmed first and last names too. */
  function AuthFormAction(isSignupMode: bool, email: string, password: string, firstname: string, lastname: string): (a: AuthAction)
    ensures a.MissingCredentials? <==> JsStrings.Trim(email) == [] || password == []
    ensures a.MissingNames? <==>
              !a.MissingCredentials? && isSignupMode && (JsStrings.Trim(firstname) == [] || JsStrings.Trim(lastname) == [])
    ensures a.SignUp? ==> isSignupMode && a == SignUp(JsStrings.Trim(email), password, JsStrings.Trim(firstname), JsStrings.Trim(lastname))
    ensures a.SignUp? ==> a.email != [] && a.password != [] && a.firstname != [] && a.lastname != []
    ensures a.SignIn? <==> !isSignupMode && !a.MissingCredentials?
    ensures a.SignIn? ==> a == SignIn(JsStrings.Trim(email), password)
  {
    var e := JsStrings.Trim(email);
    var f := JsStrings.Trim(firstname);
    var l := JsStrings.Trim(lastname);
    if e == [] || password == [] then MissingCredentials
    else if isSignupMode && (f == [] || l == []) then MissingNames
    else if isSignupMode then SignUp(e, password, f, l)
    else SignIn(e, password)
  }

  /** Signing in never looks at the name fields. */
  lemma SignInIgnoresNames(email: string, password: string, f1: string, l1: string, f2: string, l2: string)
    ensures AuthFormAction(false, email, password, f1, l1) == AuthFormAction(false, email, password, f2, l2)
  {
  }

  /** The signed-in account as the auth service reports it; the metadata
      names are those given at sign-up, when any. */
  datatype AuthUser = AuthUser(id: string, email: string, metaFirstname: Option<string>, metaLastname: Option<string>)

  /** The profile query's answer: the row, if found, and the error code,
      if the query failed. */
  datatype ProfileLookup = ProfileLookup(data: Option<User>, errorCode: Option<string>)

  /** The first decision of loadUserData. */
  datatype ProfileStep =
    | LookupFailed                  // an error other than PGRST116: thrown
    | UseExisting(user: User)       // the profile exists and is used as is
    | CreateProfile(profile: User)  // no profile: this row is inserted

  /** A missing profile is created with the auth id and email, the sign-up
      names or the defaults 'Utilisateur' and '', and the role 'user'. */
  function DefaultProfile(authUser: AuthUser): (u: User)
    ensures u.id == authUser.id && u.email == authUser.email && u.role == "user"
    ensures u.firstname == JsStrings.OrElse(authUser.metaFirstname, "Utilisateur")
    ensures u.lastname == JsStrings.OrElse(authUser.metaLastname, "")
    ensures u.firstname != []
  {
    User(authUser.id, authUser.email, JsStrings.OrElse(authUser.metaFirstname, "Utilisateur"), JsStrings.OrElse(authUser.metaLastname, ""), "user")
  }

  function ProfileStepOf(authUser: AuthUser, lookup: ProfileLookup): (s: ProfileStep)
    ensures s.LookupFailed? <==> lookup.errorCode.Some? && lookup.errorCode.value != "PGRST116"
    ensures s.UseExisting? <==> !s.LookupFailed? && lookup.data.Some?
    ensures s.UseExisting? ==> s.user == lookup.data.value
    ensures s.CreateProfile? ==> s.profile == DefaultProfile(authUser)
  {
    if lookup.errorCode.Some? && lookup.errorCode.value != "PGRST116" then LookupFailed
    else if lookup.data.Some? then UseExisting(lookup.data.value)
    else CreateProfile(DefaultProfile(authUser))
  }

  /** A user that is not an admin gets a conversation opened at sign-in. */
  predicate ShouldAutoLoadConversation(user: User) {
    user.role != "admin"
  }

  /** A profile created at sign-in has the role 'user', so its first
      load always opens a conversation. */
  lemma CreatedProfileAutoLoads(authUser: AuthUser)
    ensures ShouldAutoLoadConversation(DefaultProfile(authUser))
  {
  }

  datatype LoadOutcome =
    | SignedOut                      // the load failed; the session is closed
    | Loaded(user: User, autoLoad: bool)

  /** The page's session state. */
  class Session {
    var isSignupMode: bool
    var currentUser: Option<User>

    constructor ()
      ensures !isSignupMode && currentUser.None?
    {
      isSignupMode := false;
      currentUser := None;
    }

    /** toggleAuthMode: flips the mode and shows that mode's texts. */
    method ToggleAuthMode() returns (view: AuthModeView)
      modifies this
      ensures isSignupMode == !old(isSignupMode) && currentUser == old(currentUser)
      ensures view == ModeView(isSignupMode)
    {
      isSignupMode := !isSignupMode;
      view := ModeView(isSignupMode);
    }

    /** loadUserData: uses the profile found, or inserts the default one
        (`created` is the row the insert returns, None when it fails); a
        failure signs the user out and leaves the current user as it was. */
    method LoadUserData(authUser: AuthUser, lookup: ProfileLookup, created: Option<User>) returns (o: LoadOutcome)
      modifies this
      ensures isSignupMode == old(isSignupMode)
      ensures o.SignedOut? <==>
                ProfileStepOf(authUser, lookup).LookupFailed? || (ProfileStepOf(authUser, lookup).CreateProfile? && created.None?)
      ensures o.SignedOut? ==> currentUser == old(currentUser)
      ensures o.Loaded? ==> currentUser == Some(o.user) && o.autoLoad == ShouldAutoLoadConversation(o.user)
      ensures ProfileStepOf(authUser, lookup).UseExisting? ==> o == Loaded(lookup.data.value, lookup.data.value.role != "admin")
      ensures ProfileStepOf(authUser, lookup).CreateProfile? && created.Some? ==> o.Loaded? && o.user == created.value
    {
      var step := ProfileStepOf(authUser, lookup);
      match step {
        case LookupFailed =>
          return SignedOut;
        case UseExisting(user) =>
          currentUser := Some(user);
        case CreateProfile(profile) =>
          if created.None? {
            return SignedOut;
          }
          currentUser := created;
      }
      o := Loaded(currentUser.value, currentUser.value.role != "admin");
    }
  }

  /** What autoLoadOrCreateConversation does for a regular user. */
  datatype AutoLoad =
    | OpenExisting(conversationId: string)
    | CreateWith(args: Messages.RpcArgs)
    | NoAdminAvailable

  /** The first conversation of the user is opened; without one, a
      conversation with the first admin is requested, the user in the
      user role. */
  function AutoLoadPlan(me: string, existingConversation: Option<string>, firstAdmin: Option<string>): (p: AutoLoad)
    ensures p.OpenExisting? <==> existingConversation.Some?
    ensures p.OpenExisting? ==> p.conversationId == existingConversation.value
    ensures p.NoAdminAvailable? <==> existingConversation.None? && firstAdmin.None?
    ensures p.CreateWith? ==> p.args == Messages.RpcArgs(me, firstAdmin.value)
  {
    match existingConversation
    case Some(id) => OpenExisting(id)
    case None =>
      match firstAdmin
      case Some(adminId) => CreateWith(Messages.RpcArgs(me, adminId))
      case None => NoAdminAvailable
  }

  /** The automatic request uses the same roles as a user picking that
      admin by hand, so its messages go to the admin. */
  lemma {:induction false} AutoLoadMatchesManualPick(me: string, adminId: string)
    requires me != adminId
    ensures AutoLoadPlan(me, None, Some(adminId)) == CreateWith(Messages.ConversationRpcArgs(me, adminId, true))
    ensures Messages.ReceiverId(me, adminId, me) == adminId
  {
  }
}

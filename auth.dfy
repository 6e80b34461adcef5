/**
 * Logging in and out in the multi-file version (js/auth.js), and the
 * sidebar labels chosen for the current user.
 */
module Auth {
  import opened Common
  import opened JsText
  import opened Config
  import Chat

  const GUEST_NAME: string := "Guest User"
  const GUEST_SECTION: string := "Guest"

  /** Which toast a login attempt ends with. */
  datatype LoginOutcome = LoggedIn | FieldsRequired | NameTooShort | NameTooLong

  /**
   * The validation of `login` on the trimmed name and the section, in the
   * source's order: both given, then at least `NAME_MIN_LENGTH`, then at
   * most `NAME_MAX_LENGTH` characters.
   */
  function CheckLogin(name: string, section: string): (o: LoginOutcome)
    ensures o == LoggedIn <==> name != [] && section != [] && NAME_MIN_LENGTH <= |name| <= NAME_MAX_LENGTH
    ensures o == FieldsRequired <==> name == [] || section == []
    ensures o == NameTooShort ==> |name| == 1
  {
    if name == [] || section == [] then FieldsRequired
    else if |name| < NAME_MIN_LENGTH then NameTooShort
    else if |name| > NAME_MAX_LENGTH then NameTooLong
    else LoggedIn
  }

  /**
   * `login`: on success the user is set, the name joins `allUsers`, and
   * `showApp` reloads the chat log; a refused attempt changes nothing.
   * `userId` is the generated user id and `nowMs` the login time; `ids`
   * and `times` feed the welcome messages, which `welcome` names for the
   * contract.
   */
  method Login(st: AppState, nameInput: string, section: string, isComsai: bool, userId: string,
               nowMs: int, ids: seq<string>, times: seq<string>, ghost welcome: seq<ChatMessage>) returns (outcome: LoginOutcome)
    requires |ids| == 3 && |times| == 3 && welcome == Chat.WelcomeMessages(nowMs, ids, times)
    modifies st`currentUser, st`allUsers, st`messages, st`storedMessages
    ensures outcome == CheckLogin(Trim(nameInput), section)
    ensures outcome != LoggedIn ==>
      && st.currentUser == old(st.currentUser) && st.allUsers == old(st.allUsers)
      && st.messages == old(st.messages) && st.storedMessages == old(st.storedMessages)
    ensures outcome == LoggedIn ==>
      && st.currentUser == Some(User(userId, Trim(nameInput), section, isComsai, nowMs))
      && st.allUsers == old(st.allUsers) + {Trim(nameInput)}
      && st.messages == Chat.LoadedLog(st.storageAvailable, old(st.storedMessages), welcome)
      && st.storedMessages == Chat.StoredAfterLoad(st.storageAvailable, old(st.storedMessages), welcome)
    ensures old(st.Valid()) ==> st.Valid()
  {
    var name := Trim(nameInput);
    outcome := CheckLogin(name, section);
    if outcome == LoggedIn {
      EnterApp(st, User(userId, name, section, isComsai, nowMs), nowMs, ids, times, welcome);
    }
  }

  /**
   * What `login` and `loginAsGuest` share once the user is accepted: the
   * user is set, the name joins `allUsers`, and `showApp` reloads the chat
   * log.
   */
  method EnterApp(st: AppState, user: User, nowMs: int, ids: seq<string>, times: seq<string>,
                 ghost welcome: seq<ChatMessage>)
    requires |ids| == 3 && |times| == 3 && welcome == Chat.WelcomeMessages(nowMs, ids, times)
    modifies st`currentUser, st`allUsers, st`messages, st`storedMessages
    ensures st.currentUser == Some(user)
    ensures st.allUsers == old(st.allUsers) + {user.name}
    ensures st.messages == Chat.LoadedLog(st.storageAvailable, old(st.storedMessages), welcome)
    ensures st.storedMessages == Chat.StoredAfterLoad(st.storageAvailable, old(st.storedMessages), welcome)
    ensures old(st.Valid()) ==> st.Valid()
  {
    st.currentUser := Some(user);
    st.allUsers := st.allUsers + {user.name};
    Chat.LoadInitialMessages(st, nowMs, ids, times);
  }

  /** `loginAsGuest`: the fixed guest user, who joins `allUsers`, then `showApp`. */
  method LoginAsGuest(st: AppState, userId: string, nowMs: int, ids: seq<string>, times: seq<string>,
                      ghost welcome: seq<ChatMessage>)
    requires |ids| == 3 && |times| == 3 && welcome == Chat.WelcomeMessages(nowMs, ids, times)
    modifies st`currentUser, st`allUsers, st`messages, st`storedMessages
    ensures st.currentUser == Some(User(userId, GUEST_NAME, GUEST_SECTION, false, nowMs))
    ensures st.allUsers == old(st.allUsers) + {GUEST_NAME}
    ensures st.messages == Chat.LoadedLog(st.storageAvailable, old(st.storedMessages), welcome)
    ensures st.storedMessages == Chat.StoredAfterLoad(st.storageAvailable, old(st.storedMessages), welcome)
    ensures old(st.Valid()) ==> st.Valid()
  {
    EnterApp(st, User(userId, GUEST_NAME, GUEST_SECTION, false, nowMs), nowMs, ids, times, welcome);
  }

  /**
   * `logout`, with the answer to its `confirm()` dialog: the user and their
   * own vote set are cleared; the counters and `allUsers` stay. The source
   * reads `APP_STATE.currentUser.name` after confirming, so a confirmed
   * logout needs a logged-in user.
   */
  method Logout(st: AppState, confirmed: bool)
    requires !confirmed || st.currentUser.Some?
    modifies st`currentUser, st`userVotes
    ensures confirmed ==> st.currentUser == None && st.userVotes == {}
    ensures !confirmed ==> st.currentUser == old(st.currentUser) && st.userVotes == old(st.userVotes)
    ensures old(st.Valid()) ==> st.Valid()
  {
    if !confirmed {
      return;
    }
    st.currentUser := None;
    st.userVotes := {};
  }

  /** The sidebar badge of `updateUserInfo`: its text and background. */
  datatype Badge = Badge(text: string, background: string)

  /** The CoMSAI badge wins over the section; otherwise the guest section picks the guest badge. */
  function UserBadge(u: User): (b: Badge)
    ensures b.text == "\U{2713} CoMSai Student" <==> u.isComsai
    ensures b.text == "Guest Mode" <==> !u.isComsai && u.section == GUEST_SECTION
    ensures b.text == "CS Student" <==> !u.isComsai && u.section != GUEST_SECTION
  {
    if u.isComsai then Badge("\U{2713} CoMSai Student", "var(--success)")
    else if u.section == GUEST_SECTION then Badge("Guest Mode", "var(--secondary)")
    else Badge("CS Student", "var(--accent)")
  }

  /** The section line of the sidebar: "Guest Mode" exactly for the guest section. */
  function SectionLabel(section: string): (shown: string)
    ensures shown == "Guest Mode" <==> section == GUEST_SECTION || section == "Guest Mode"
    ensures section != GUEST_SECTION ==> shown == section
  {
    if section != GUEST_SECTION then section else "Guest Mode"
  }
}

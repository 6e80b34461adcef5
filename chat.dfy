/**
 * The chat of the multi-file version (js/chat.js): sending, seeding and
 * loading the log, storing it under `disasterPrep_messages`, clearing it.
 * Message rendering is `Markup.FormatMessageContent`.
 */
module Chat {
  import opened Common
  import opened JsText
  import opened Config

  const STORAGE_KEY: string := "disasterPrep_messages"

  const SYSTEM_USER: string := "\U{1F916} System"
  const TIP_USER: string := "\U{1F4A1} Tip"
  const WELCOME_ACTIVATED: string :=
    "\U{2705} PERMANENT COMMUNITY CHAT ACTIVATED - All messages are saved and shared with everyone!"
  const WELCOME_PUBLIC: string :=
    "\U{1F4CC} This is a PUBLIC & PERMANENT chat. Your messages will be visible to all users and will be saved even after page refresh."
  const WELCOME_TIP: string :=
    "Share disaster preparedness tips, resources, and links. Help the community stay safe and informed!"

  /**
   * The three welcome messages of a first visit, stamped two minutes ago,
   * one minute ago and now; `ids` are the generated message ids and
   * `times` the locale renderings of the three instants.
   */
  function WelcomeMessages(nowMs: int, ids: seq<string>, times: seq<string>): (ms: seq<ChatMessage>)
    requires |ids| == 3 && |times| == 3
    ensures |ms| == 3
    ensures forall i :: 0 <= i < 3 ==>
      ms[i].isSystemMessage && ms[i].userId == "system" && ms[i].id == ids[i] && ms[i].time == times[i]
    ensures ms[0].timestamp == nowMs - 120000 && ms[1].timestamp == nowMs - 60000 && ms[2].timestamp == nowMs
    ensures ms[0].timestamp < ms[1].timestamp < ms[2].timestamp
    ensures ms[0].user == SYSTEM_USER && ms[1].user == SYSTEM_USER && ms[2].user == TIP_USER
    ensures ms[0].content == WELCOME_ACTIVATED && ms[1].content == WELCOME_PUBLIC && ms[2].content == WELCOME_TIP
  {
    [ ChatMessage(ids[0], SYSTEM_USER, "system", WELCOME_ACTIVATED, nowMs - 120000, times[0], true),
      ChatMessage(ids[1], SYSTEM_USER, "system", WELCOME_PUBLIC, nowMs - 60000, times[1], true),
      ChatMessage(ids[2], TIP_USER, "system", WELCOME_TIP, nowMs, times[2], true) ]
  }

  /**
   * The log `loadInitialMessages` leaves: the stored list when there is
   * one, the welcome messages on a first visit, and an empty log when the
   * stored value does not parse or storage throws.
   */
  function LoadedLog(available: bool, stored: Slot<seq<ChatMessage>>, welcome: seq<ChatMessage>): (r: seq<ChatMessage>)
    ensures !available ==> r == []
    ensures r == [] || r == welcome || (stored.Present? && r == stored.value)
  {
    if !available then []
    else match stored
      case Present(ms) => ms
      case Malformed => []
      case Absent => welcome
  }

  /**
   * The stored value after `loadInitialMessages`: a first visit stores the
   * welcome messages, so that a reload shows the log this load showed,
   * whatever welcome messages the reload would generate.
   */
  function StoredAfterLoad(available: bool, stored: Slot<seq<ChatMessage>>, welcome: seq<ChatMessage>): (r: Slot<seq<ChatMessage>>)
    ensures forall w :: LoadedLog(available, r, w) == LoadedLog(available, stored, welcome)
  {
    if available && stored.Absent? then Present(welcome) else stored
  }

  /** `loadInitialMessages`. */
  method LoadInitialMessages(st: AppState, nowMs: int, ids: seq<string>, times: seq<string>)
    requires |ids| == 3 && |times| == 3
    modifies st`messages, st`storedMessages
    ensures st.messages == LoadedLog(st.storageAvailable, old(st.storedMessages), WelcomeMessages(nowMs, ids, times))
    ensures st.storedMessages == StoredAfterLoad(st.storageAvailable, old(st.storedMessages), WelcomeMessages(nowMs, ids, times))
  {
    if !st.storageAvailable {
      st.messages := [];
      return;
    }
    match st.storedMessages
    case Present(ms) =>
      st.messages := ms;
    case Malformed =>
      st.messages := [];
    case Absent =>
      st.messages := [];
      st.messages := st.messages + WelcomeMessages(nowMs, ids, times);
      SaveMessagesToStorage(st);
  }

  /** `saveMessagesToStorage`: a failing write is only logged. */
  method SaveMessagesToStorage(st: AppState)
    modifies st`storedMessages
    ensures st.storedMessages == if st.storageAvailable then Present(st.messages) else old(st.storedMessages)
  {
    if st.storageAvailable {
      st.storedMessages := Present(st.messages);
    }
  }

  datatype SendOutcome = Ignored | TooLong | Sent

  /**
   * `sendMessage`: trimmed-empty input is ignored, trimmed input over
   * `MESSAGE_MAX_LENGTH` is refused, anything else is appended as one
   * message of the current user and the log is stored. The source reads
   * `APP_STATE.currentUser.name` without a check, so an accepted message
   * needs a logged-in user.
   */
  method SendMessage(st: AppState, input: string, id: string, nowMs: int, time: string) returns (outcome: SendOutcome)
    requires Trim(input) == [] || |Trim(input)| > MESSAGE_MAX_LENGTH || st.currentUser.Some?
    modifies st`messages, st`storedMessages
    ensures outcome == if Trim(input) == [] then Ignored else if |Trim(input)| > MESSAGE_MAX_LENGTH then TooLong else Sent
    ensures outcome != Sent ==> st.messages == old(st.messages) && st.storedMessages == old(st.storedMessages)
    ensures outcome == Sent ==>
      && st.messages == old(st.messages) + [ChatMessage(id, st.currentUser.value.name, st.currentUser.value.id, Trim(input), nowMs, time, false)]
      && st.storedMessages == if st.storageAvailable then Present(st.messages) else old(st.storedMessages)
  {
    var message := Trim(input);
    if message == [] {
      return Ignored;
    }
    if |message| > MESSAGE_MAX_LENGTH {
      return TooLong;
    }
    var u := st.currentUser.value;
    st.messages := st.messages + [ChatMessage(id, u.name, u.id, message, nowMs, time, false)];
    SaveMessagesToStorage(st);
    outcome := Sent;
  }

  /** `clearChat`, with the answer to its `confirm()` dialog. */
  method ClearChat(st: AppState, confirmed: bool)
    modifies st`messages, st`storedMessages
    ensures !confirmed ==> st.messages == old(st.messages) && st.storedMessages == old(st.storedMessages)
    ensures confirmed ==> st.messages == [] && st.storedMessages == if st.storageAvailable then Absent else old(st.storedMessages)
  {
    if !confirmed {
      return;
    }
    st.messages := [];
    if st.storageAvailable {
      st.storedMessages := Absent;
    }
  }
}

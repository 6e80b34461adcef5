/**
 * The page state of the single-file version (app.js): the logged-in user,
 * the user's own `state.votes` map, the chat log, and the three
 * `localStorage` keys the page reads and writes.
 */
module App {
  import opened Common
  import opened JsText
  import opened AppLedger

  const USER_DATA_KEY: string := "dph_user_data"
  const VOTES_KEY: string := "dph_votes"
  const MESSAGES_KEY: string := "dph_messages"

  /** The longest chat message `sendMessage` accepts, in characters. */
  const MAX_MESSAGE_LENGTH: nat := 200

  /** The user record that `handleLogin` and `loginAsGuest` build. */
  datatype User = User(name: string, section: string, isComsai: bool, loginTime: string)

  /** A chat message; `id` is the `Date.now()` of sending. */
  datatype Message = Message(id: int, userName: string, content: string, timestamp: string)

  /** Which toast a login attempt ends with. */
  datatype LoginOutcome = LoggedIn | NameMissing | SectionMissing

  /** Which toast a vote toggle ends with. */
  datatype ToggleOutcome = PleaseLogin | VoteRemoved | VoteRecorded

  /** Which toast sending a chat message ends with. */
  datatype SendOutcome = Sent | EmptyMessage | PleaseLoginToSend | TooLong

  class Hub {
    var currentUser: Option<User>
    /** `state.votes`: the entries of a JS `Map` from platform id to vote, in insertion order. */
    var votes: seq<VoteRecord>
    var messages: seq<Message>
    /** The values under `dph_user_data`, `dph_votes` and `dph_messages`. */
    var storedUser: Slot<User>
    var storedVotes: seq<VoteRecord>
    var storedMessages: Slot<seq<Message>>

    /** `state.votes` is a map, and it holds only the current user's votes. */
    ghost predicate Valid()
      reads this
    {
      DistinctKeys(votes) && (currentUser.Some? ==> Owned(votes, currentUser.value.name))
    }

    /** The initial `state` object, on a page whose storage holds the given values. */
    constructor (user: Slot<User>, voteList: seq<VoteRecord>, messageList: Slot<seq<Message>>)
      ensures Valid()
      ensures currentUser == None && votes == [] && messages == []
      ensures storedUser == user && storedVotes == voteList && storedMessages == messageList
    {
      currentUser := None;
      votes := [];
      messages := [];
      storedUser := user;
      storedVotes := voteList;
      storedMessages := messageList;
    }

    /**
     * `loadStoredData`: restores the user, then merges that user's stored
     * records into `state.votes` with `map.set`, then restores the chat log
     * (a log that does not parse leaves an empty log).
     */
    method LoadStoredData()
      modifies this`currentUser, this`votes, this`messages
      ensures currentUser == (if storedUser.Present? then Some(storedUser.value) else old(currentUser))
      ensures votes == (if currentUser.Some? then LoadedVotes(old(votes), Mine(storedVotes, currentUser.value.name)) else old(votes))
      ensures messages == match storedMessages
                          case Absent => old(messages)
                          case Malformed => []
                          case Present(ms) => ms
      ensures old(votes) == [] ==> Valid()
    {
      if storedUser.Present? {
        currentUser := Some(storedUser.value);
      }
      if currentUser.Some? {
        LoadUserVotes();
      }
      match storedMessages
      case Absent =>
      case Malformed => messages := [];
      case Present(ms) => messages := ms;
    }

    /** The loop of `loadStoredData` that copies the user's stored records into `state.votes`. */
    method LoadUserVotes()
      requires currentUser.Some?
      modifies this`votes
      ensures votes == LoadedVotes(old(votes), Mine(storedVotes, currentUser.value.name))
      ensures old(votes) == [] ==> Valid()
    {
      var name := currentUser.value.name;
      var mine := Mine(storedVotes, name);
      ghost var start := votes;
      var i := 0;
      while i < |mine|
        invariant 0 <= i <= |mine|
        invariant votes == LoadedVotes(start, mine[..i])
      {
        LoadedVotesStep(start, mine, i);
        votes := SetKey(votes, mine[i]);
        i := i + 1;
      }
      assert mine[..|mine|] == mine;
      if start == [] {
        LoadedUserMap(mine, name);
      }
    }

    /** `handleLogin`: a name that trims to nothing, or no section, is refused. */
    method HandleLogin(nameInput: string, sectionInput: string, isComsai: bool, loginTime: string)
      returns (outcome: LoginOutcome)
      requires Valid()
      modifies this`currentUser, this`storedUser, this`votes
      ensures Valid()
      ensures outcome == (if Trim(nameInput) == [] then NameMissing else if sectionInput == [] then SectionMissing else LoggedIn)
      ensures outcome != LoggedIn ==> currentUser == old(currentUser) && storedUser == old(storedUser) && votes == old(votes)
      ensures outcome == LoggedIn ==>
        && currentUser == Some(User(Trim(nameInput), sectionInput, isComsai, loginTime))
        && storedUser == Present(currentUser.value)
        && votes == LoadedVotes([], Mine(storedVotes, Trim(nameInput)))
    {
      var name := Trim(nameInput);
      if name == [] {
        return NameMissing;
      }
      if sectionInput == [] {
        return SectionMissing;
      }
      LoginUser(User(name, sectionInput, isComsai, loginTime));
      outcome := LoggedIn;
    }

    /** `loginAsGuest`: the fixed guest user. */
    method LoginAsGuest(loginTime: string)
      requires Valid()
      modifies this`currentUser, this`storedUser, this`votes
      ensures Valid()
      ensures currentUser == Some(User("Guest", "Guest", false, loginTime)) && storedUser == Present(currentUser.value)
      ensures votes == LoadedVotes([], Mine(storedVotes, "Guest"))
    {
      LoginUser(User("Guest", "Guest", false, loginTime));
    }

    /**
     * `loginUser` as written: it stores the new user and leaves
     * `state.votes` as it was, so the map can still hold the votes of the
     * user who was logged in before (after `logout`, or when the page
     * restored a stored user and someone else logs in).
     */
    method LoginUserAsWritten(u: User)
      modifies this`currentUser, this`storedUser
      ensures currentUser == Some(u) && storedUser == Present(u)
    {
      currentUser := Some(u);
      storedUser := Present(u);
    }

    /**
     * `loginUser` as intended: besides storing the new user, `state.votes`
     * is rebuilt from that user's stored records, as `loadStoredData` does.
     * The map then holds only the new user's votes.
     */
    method LoginUser(u: User)
      modifies this`currentUser, this`storedUser, this`votes
      ensures Valid()
      ensures currentUser == Some(u) && storedUser == Present(u)
      ensures votes == LoadedVotes([], Mine(storedVotes, u.name))
      ensures OnePerPair(storedVotes) ==> votes == Mine(storedVotes, u.name)
    {
      currentUser := Some(u);
      storedUser := Present(u);
      votes := [];
      LoadUserVotes();
      if OnePerPair(storedVotes) {
        OnePerPairMineDistinct(storedVotes, u.name);
        LoadedVotesFromEmpty(Mine(storedVotes, u.name));
      }
    }

    /** `logout`, with the answer to its `confirm()` dialog. */
    method Logout(confirmed: bool)
      requires DistinctKeys(votes)
      modifies this`currentUser, this`storedUser
      ensures old(Valid()) ==> Valid()
      ensures confirmed ==> Valid()
      ensures confirmed ==> currentUser == None && storedUser == Absent
      ensures !confirmed ==> currentUser == old(currentUser) && storedUser == old(storedUser)
    {
      if confirmed {
        currentUser := None;
        storedUser := Absent;
      }
    }

    /**
     * `toggleVote`: without a user nothing changes; otherwise the platform
     * leaves the map if present and enters it (stamped `now`) if absent, and
     * the stored list is rewritten by `saveVotes`. The map may still hold
     * the entries of the user logged in before (`loginUser` as written
     * keeps it); only when it holds the current user's alone does the
     * stored list keep one record per user and platform.
     */
    method ToggleVote(platformId: string, now: string) returns (outcome: ToggleOutcome)
      requires DistinctKeys(votes)
      modifies this`votes, this`storedVotes
      ensures DistinctKeys(votes)
      ensures old(Valid()) ==> Valid()
      ensures currentUser.None? ==> outcome == PleaseLogin && votes == old(votes) && storedVotes == old(storedVotes)
      ensures currentUser.Some? ==>
        && votes == Toggled(old(votes), VoteRecord(platformId, currentUser.value.name, now))
        && outcome == (if platformId in Keys(old(votes)) then VoteRemoved else VoteRecorded)
        && storedVotes == SavedVotes(old(storedVotes), currentUser.value.name, votes)
      ensures old(Valid()) && OnePerPair(old(storedVotes)) ==> OnePerPair(storedVotes)
    {
      if currentUser.None? {
        return PleaseLogin;
      }
      var name := currentUser.value.name;
      var r := VoteRecord(platformId, name, now);
      if platformId in Keys(votes) {
        RemoveKeyDistinct(votes, platformId);
        votes := RemoveKey(votes, platformId);
        outcome := VoteRemoved;
      } else {
        SetKeyAppends(votes, r);
        SetKeyDistinct(votes, r);
        votes := SetKey(votes, r);
        outcome := VoteRecorded;
      }
      SaveVotes();
      if old(Valid()) {
        ToggledValid(old(votes), r, name);
        if OnePerPair(old(storedVotes)) {
          SaveKeepsOnePerPair(old(storedVotes), name, votes);
        }
      }
    }

    /**
     * `saveVotes`: drops the user's records from the stored list and appends
     * one record per entry of `state.votes`, in the map's order.
     */
    method SaveVotes()
      requires currentUser.Some?
      modifies this`storedVotes
      ensures storedVotes == SavedVotes(old(storedVotes), currentUser.value.name, votes)
    {
      var allVotes := storedVotes;
      var filtered := Others(allVotes, currentUser.value.name);
      for i := 0 to |votes|
        invariant filtered == Others(allVotes, currentUser.value.name) + votes[..i]
      {
        filtered := filtered + [votes[i]];
        assert votes[..i + 1] == votes[..i] + [votes[i]];
      }
      assert votes[..|votes|] == votes;
      storedVotes := filtered;
    }

    /**
     * `sendMessage`: the trimmed input is refused when empty, when nobody is
     * logged in, or when longer than 200 characters (in that order);
     * otherwise exactly one message is appended and the log is stored.
     */
    method SendMessage(input: string, nowMs: int, nowIso: string) returns (outcome: SendOutcome)
      modifies this`messages, this`storedMessages
      ensures outcome == (if Trim(input) == [] then EmptyMessage
                          else if currentUser.None? then PleaseLoginToSend
                          else if |Trim(input)| > MAX_MESSAGE_LENGTH then TooLong
                          else Sent)
      ensures outcome != Sent ==> messages == old(messages) && storedMessages == old(storedMessages)
      ensures outcome == Sent ==>
        && messages == old(messages) + [Message(nowMs, currentUser.value.name, Trim(input), nowIso)]
        && storedMessages == Present(messages)
    {
      var content := Trim(input);
      if content == [] {
        return EmptyMessage;
      }
      if currentUser.None? {
        return PleaseLoginToSend;
      }
      if |content| > MAX_MESSAGE_LENGTH {
        return TooLong;
      }
      messages := messages + [Message(nowMs, currentUser.value.name, content, nowIso)];
      SaveMessages();
      outcome := Sent;
    }

    /** `saveMessages`. */
    method SaveMessages()
      modifies this`storedMessages
      ensures storedMessages == Present(messages)
    {
      storedMessages := Present(messages);
    }
  }

  /**
   * The sequence of the first finding on the page, with `loginUser` as
   * written: "Ana" logs in and votes facebook, logs out, then "Ben" logs in,
   * votes twitter and logs out, although the map still held Ana's entry.
   * The stored list ends with Ana's vote twice.
   */
  method StaleVotesAfterRelogin() returns (h: Hub)
    ensures h.storedVotes == [VoteRecord("facebook", "Ana", "t0"), VoteRecord("facebook", "Ana", "t0"),
                              VoteRecord("twitter", "Ben", "t1")]
    ensures VoteCount(h.storedVotes, "facebook") == 2 && !OnePerPair(h.storedVotes)
  {
    h := new Hub(Absent, [], Absent);
    h.LoginUserAsWritten(User("Ana", "A", false, "l0"));
    var first := h.ToggleVote("facebook", "t0");
    assert h.votes == [VoteRecord("facebook", "Ana", "t0")] by {
      SetKeyAppends([], VoteRecord("facebook", "Ana", "t0"));
    }
    h.Logout(true);
    h.LoginUserAsWritten(User("Ben", "B", false, "l1"));
    var second := h.ToggleVote("twitter", "t1");
    StaleEntrySavedTwice();
    h.Logout(true);
  }

  /** The same sequence with the corrected `loginUser`: every vote is stored once. */
  method FreshVotesAfterRelogin() returns (h: Hub)
    ensures h.storedVotes == [VoteRecord("facebook", "Ana", "t0"), VoteRecord("twitter", "Ben", "t1")]
    ensures OnePerPair(h.storedVotes)
  {
    FreshEntriesSavedOnce();
    h := new Hub(Absent, [], Absent);
    h.LoginUser(User("Ana", "A", false, "l0"));
    var first := h.ToggleVote("facebook", "t0");
    h.Logout(true);
    h.LoginUser(User("Ben", "B", false, "l1"));
    var second := h.ToggleVote("twitter", "t1");
  }

  lemma LoadedUserMap(mine: seq<VoteRecord>, name: string)
    requires Owned(mine, name)
    ensures DistinctKeys(LoadedVotes([], mine)) && Owned(LoadedVotes([], mine), name)
  {
    LoadedVotesOwned([], mine, name);
  }

  lemma ToggledValid(v: seq<VoteRecord>, r: VoteRecord, name: string)
    requires DistinctKeys(v) && Owned(v, name) && r.userId == name
    ensures DistinctKeys(Toggled(v, r)) && Owned(Toggled(v, r), name)
  {
    ToggledOwned(v, r, name);
  }

  // ---------------------------------------------------------------------
  // Relative time

  datatype TimeUnit = Minutes | Hours | Days

  /** What `formatTime` shows; `CalendarDate` stands for `date.toLocaleDateString()`. */
  datatype TimeLabel = JustNow | Ago(amount: nat, unit: TimeUnit) | CalendarDate

  function UnitMs(u: TimeUnit): nat {
    match u
    case Minutes => 60000
    case Hours => 3600000
    case Days => 86400000
  }

  /**
   * `formatTime`, given `now - timestamp` in milliseconds: whole minutes,
   * hours or days, each rounded down, with the first unit whose count is
   * below 60, 24 or 7; under one minute (a future timestamp included) is
   * "Just now".
   */
  function FormatTime(diffMs: int): (l: TimeLabel)
    ensures l == JustNow <==> diffMs < 60000
    ensures l == CalendarDate <==> diffMs >= 7 * 86400000
    ensures l.Ago? ==> 1 <= l.amount && l.amount * UnitMs(l.unit) <= diffMs < (l.amount + 1) * UnitMs(l.unit)
    ensures l.Ago? && l.unit == Minutes <==> 60000 <= diffMs < 3600000
    ensures l.Ago? && l.unit == Hours <==> 3600000 <= diffMs < 86400000
    ensures l.Ago? && l.unit == Days <==> 86400000 <= diffMs < 7 * 86400000
  {
    var mins := diffMs / 60000;
    if mins < 1 then JustNow
    else if mins < 60 then Ago(mins, Minutes)
    else
      var hours := mins / 60;
      MulLe(hours * 60, mins, 60000);
      MulLe(mins + 1, (hours + 1) * 60, 60000);
      if hours < 24 then Ago(hours, Hours)
      else
        var days := hours / 24;
        MulLe(days * 24, hours, 3600000);
        MulLe(hours + 1, (days + 1) * 24, 3600000);
        if days < 7 then Ago(days, Days) else CalendarDate
  }

  /** The letter that follows the amount in a label. */
  function UnitLetter(u: TimeUnit): char {
    match u
    case Minutes => 'm'
    case Hours => 'h'
    case Days => 'd'
  }

  /** The text shown for a label; `None` for the locale-dependent date. */
  function LabelText(l: TimeLabel): (r: Option<string>)
    ensures r.None? <==> l.CalendarDate?
  {
    match l
    case JustNow => Some("Just now")
    case Ago(n, Minutes) => Some(Decimal(n) + "m ago")
    case Ago(n, Hours) => Some(Decimal(n) + "h ago")
    case Ago(n, Days) => Some(Decimal(n) + "d ago")
    case CalendarDate => None
  }

  /** The shown text starts with the amount's digits, which read back as the amount. */
  lemma LabelTextReadsBack(l: TimeLabel)
    requires l.Ago?
    ensures var t := LabelText(l).value;
      var k := |t| - 5;
      && 0 < k && AllDigits(t[..k]) && ParseDecimal(t[..k]) == l.amount && t[k] == UnitLetter(l.unit) && t[k + 1..] == " ago"
  {
    var t := LabelText(l).value;
    assert t[..|t| - 5] == Decimal(l.amount);
    ParseDecimalOfDecimal(l.amount);
  }
}

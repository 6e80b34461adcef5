/**
 * The shared configuration and state object of the multi-file version
 * (config.js): the numeric platform catalog, the input limits, and
 * `APP_STATE`, whose fields the functions of js/voting.js, js/chat.js and
 * js/auth.js update in place.
 */
module Config {
  import opened Common

  /** One entry of `CONFIG.PLATFORMS`. */
  datatype Platform = Platform(id: int, name: string, emoji: string, color: string)

  /** `CONFIG.PLATFORMS`, in catalog order. */
  const PLATFORMS: seq<Platform> := [
    Platform(1, "Facebook", "\U{1F44D}", "#1877F2"),
    Platform(2, "YouTube", "\U{1F4F9}", "#FF0000"),
    Platform(3, "X (Twitter)", "\U{1D54F}", "#000000"),
    Platform(4, "TikTok", "\U{1F3B5}", "#25F4EE"),
    Platform(5, "Instagram", "\U{1F4F7}", "#E4405F"),
    Platform(6, "Threads", "\U{1F9F5}", "#000000")
  ]

  /** `CONFIG.LIMITS`. */
  const MESSAGE_MAX_LENGTH: nat := 200
  const NAME_MIN_LENGTH: nat := 2
  const NAME_MAX_LENGTH: nat := 50

  /** The toasts of `CONFIG.MESSAGES` that the modelled operations show. */
  const VOTE_ADDED: string := "\U{2713} Vote added"
  const VOTE_REMOVED: string := "\U{2713} Vote removed"

  /** The catalog's ids are 1 to 6, in catalog order. */
  lemma CatalogIds()
    ensures |PLATFORMS| == 6
    ensures forall i :: 0 <= i < |PLATFORMS| ==> PLATFORMS[i].id == i + 1
  {
  }

  /** The catalog's ids, in catalog order: the i-th is the id of the i-th platform, which is i + 1. */
  function PlatformIds(): (ids: seq<int>)
    ensures |ids| == |PLATFORMS| == 6
    ensures forall i :: 0 <= i < |ids| ==> ids[i] == PLATFORMS[i].id == i + 1
  {
    [1, 2, 3, 4, 5, 6]
  }

  /** The set of catalog ids: an id is in it exactly when some platform has it, and those are 1 to 6. */
  function IdSet(): (ids: set<int>)
    ensures forall id :: id in ids <==> exists i :: 0 <= i < |PLATFORMS| && PLATFORMS[i].id == id
    ensures forall id :: id in ids <==> 1 <= id <= 6
  {
    CatalogIds();
    assert PLATFORMS[0].id == 1 && PLATFORMS[1].id == 2 && PLATFORMS[2].id == 3;
    assert PLATFORMS[3].id == 4 && PLATFORMS[4].id == 5 && PLATFORMS[5].id == 6;
    {1, 2, 3, 4, 5, 6}
  }

  predicate Distinct(ids: seq<int>) {
    forall i, j :: 0 <= i < j < |ids| ==> ids[i] != ids[j]
  }

  lemma CatalogIdsDistinct()
    ensures Distinct(PlatformIds())
  {
  }

  /**
   * `getPlatformById`: `Array.prototype.find`, the first entry with that id,
   * and `undefined` exactly when no entry has it.
   */
  function GetPlatformById(id: int): (r: Option<Platform>)
    ensures r.None? <==> forall i :: 0 <= i < |PLATFORMS| ==> PLATFORMS[i].id != id
    ensures r.Some? ==> exists i :: 0 <= i < |PLATFORMS| && PLATFORMS[i] == r.value && r.value.id == id &&
                                   forall j :: 0 <= j < i ==> PLATFORMS[j].id != id
  {
    FindFrom(id, 0)
  }

  function FindFrom(id: int, k: nat): (r: Option<Platform>)
    requires k <= |PLATFORMS|
    ensures r.None? <==> forall i :: k <= i < |PLATFORMS| ==> PLATFORMS[i].id != id
    ensures r.Some? ==> exists i :: k <= i < |PLATFORMS| && PLATFORMS[i] == r.value && r.value.id == id &&
                                   forall j :: k <= j < i ==> PLATFORMS[j].id != id
    decreases |PLATFORMS| - k
  {
    if k == |PLATFORMS| then None
    else if PLATFORMS[k].id == id then Some(PLATFORMS[k])
    else FindFrom(id, k + 1)
  }

  /** `getPlatformName`: the entry's name, or "Unknown" for an id outside the catalog. */
  function GetPlatformName(id: int): (name: string)
    ensures 1 <= id <= 6 ==> name == PLATFORMS[id - 1].name
    ensures !(1 <= id <= 6) ==> name == "Unknown"
  {
    match GetPlatformById(id)
    case Some(p) => p.name
    case None => "Unknown"
  }

  /** The user object that `login` and `loginAsGuest` build; `id` is the random `generateUserId()`. */
  datatype User = User(id: string, name: string, section: string, isComsai: bool, loginTime: int)

  /**
   * A chat message; `id` is the random `generateMessageId()`, `timestamp`
   * the clock in milliseconds and `time` its locale rendering.
   */
  datatype ChatMessage = ChatMessage(id: string, user: string, userId: string, content: string,
                                     timestamp: int, time: string, isSystemMessage: bool)

  /** The counter of a platform, 0 when it has none. */
  function Count(counts: map<int, int>, id: int): int {
    if id in counts then counts[id] else 0
  }

  /**
   * One counter per catalog platform, none negative, and every platform of
   * `userVotes` counted at least once.
   */
  predicate CountersAgree(userVotes: set<int>, allVotes: map<int, int>) {
    && allVotes.Keys == IdSet()
    && (forall id :: id in allVotes ==> allVotes[id] >= 0)
    && userVotes <= IdSet()
    && (forall id :: id in userVotes ==> allVotes[id] >= 1)
  }

  /**
   * `APP_STATE`, with the page's storage: `storageAvailable` is false when
   * `localStorage` throws on every access, and `storedMessages` is the value
   * under `disasterPrep_messages`.
   */
  class AppState {
    var currentUser: Option<User>
    var userVotes: set<int>
    var allVotes: map<int, int>
    var allUsers: set<string>
    var messages: seq<ChatMessage>
    var storageAvailable: bool
    var storedMessages: Slot<seq<ChatMessage>>

    /**
     * One counter per catalog platform, none negative, and every platform
     * the current user voted for has at least that vote counted.
     */
    ghost predicate Valid()
      reads this
    {
      CountersAgree(userVotes, allVotes)
    }

    /** The `APP_STATE` literal, before `initializeVotes` runs. */
    constructor (available: bool, stored: Slot<seq<ChatMessage>>)
      ensures currentUser == None && userVotes == {} && allVotes == map[] && allUsers == {} && messages == []
      ensures storageAvailable == available && storedMessages == stored
    {
      currentUser := None;
      userVotes := {};
      allVotes := map[];
      allUsers := {};
      messages := [];
      storageAvailable := available;
      storedMessages := stored;
    }
  }

  /** `initializeVotes`: a zero counter for every catalog platform. */
  method InitializeVotes(st: AppState)
    modifies st`allVotes
    ensures st.allVotes.Keys == old(st.allVotes).Keys + IdSet()
    ensures forall id :: id in IdSet() ==> st.allVotes[id] == 0
    ensures forall id :: id in old(st.allVotes) && id !in IdSet() ==> st.allVotes[id] == old(st.allVotes)[id]
    ensures old(st.allVotes) == map[] && st.userVotes == {} ==> st.Valid()
  {
    for i := 0 to |PLATFORMS|
      invariant forall id :: id in st.allVotes <==> id in old(st.allVotes) || 1 <= id <= i
      invariant forall id :: 1 <= id <= i ==> st.allVotes[id] == 0
      invariant forall id :: id in old(st.allVotes) && !(1 <= id <= i) ==> st.allVotes[id] == old(st.allVotes)[id]
    {
      CatalogIds();
      st.allVotes := st.allVotes[PLATFORMS[i].id := 0];
    }
    assert st.allVotes.Keys == old(st.allVotes).Keys + IdSet();
    assert old(st.allVotes) == map[] ==> st.allVotes.Keys == IdSet();
  }
}

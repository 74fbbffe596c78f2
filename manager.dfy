/** The client manager `Heos` of pyheos/heos.py: the state it keeps about the players, groups
    and music sources of a HEOS system, and how a fresh payload from the device is reconciled
    with that state. The network calls are replaced by their payloads, passed as parameters. */
module Manager {
  import opened Wrappers
  import opened Dicts

  // ---------------------------------------------------------------------------------------
  // Payload entries

  /** One entry of a `get_players` payload, reduced to its player id and its name. */
  datatype PlayerData = PlayerData(playerId: int, name: string)

  /** One entry of a `get_groups` payload. */
  datatype GroupData = GroupData(groupId: int, name: string)

  /** One entry of a `get_music_sources` or favourites payload. */
  datatype SourceData = SourceData(sourceId: int, name: string)

  function PlayerKey(d: PlayerData): int { d.playerId }
  function GroupKey(d: GroupData): int { d.groupId }
  function SourceKey(d: SourceData): int { d.sourceId }

  // ---------------------------------------------------------------------------------------
  // Keyed dictionaries built by `for data in payload: d[key(data)] = data`

  function Keyed<T>(items: seq<T>, key: T -> int): (pairs: seq<(int, T)>)
    ensures |pairs| == |items|
  {
    seq(|items|, i requires 0 <= i < |items| => (key(items[i]), items[i]))
  }

  /** The dictionary that a loop assigning `d[key(item)] = item` for each item, in order, leaves. */
  function Index<T>(items: seq<T>, key: T -> int): map<int, T>
  {
    DictOf(Keyed(items, key))
  }

  /** `i` is the last position of the items whose key is `k`. */
  ghost predicate LastWithId<T>(items: seq<T>, key: T -> int, k: int, i: int)
  {
    0 <= i < |items| && key(items[i]) == k && forall j :: i < j < |items| ==> key(items[j]) != k
  }

  /** The keys of the dictionary are the keys of the items; each maps to the last item that has
      it, which therefore carries that key itself. */
  lemma IndexSpec<T>(items: seq<T>, key: T -> int)
    ensures forall k :: k in Index(items, key) <==> exists i :: 0 <= i < |items| && key(items[i]) == k
    ensures forall k :: k in Index(items, key) ==>
      exists i :: LastWithId(items, key, k, i) && Index(items, key)[k] == items[i]
    ensures forall k :: k in Index(items, key) ==> key(Index(items, key)[k]) == k
  {
    var pairs := Keyed(items, key);
    DictOfSpec(pairs);
    forall k ensures k in Index(items, key) <==> exists i :: 0 <= i < |items| && key(items[i]) == k {
      if exists i :: 0 <= i < |items| && key(items[i]) == k {
        var i :| 0 <= i < |items| && key(items[i]) == k;
        assert pairs[i].0 == k;
      }
    }
    forall k | k in Index(items, key)
      ensures exists i :: LastWithId(items, key, k, i) && Index(items, key)[k] == items[i]
    {
      var i :| LastWithKey(pairs, k, i) && DictOf(pairs)[k] == pairs[i].1;
      forall j | i < j < |items| ensures key(items[j]) != k {
        assert pairs[j].0 != k;
      }
      assert LastWithId(items, key, k, i);
    }
  }

  /** One more item is one more assignment. */
  lemma IndexSnoc<T>(items: seq<T>, key: T -> int, x: T)
    ensures Index(items + [x], key) == Index(items, key)[key(x) := x]
  {
    assert Keyed(items + [x], key) == Keyed(items, key) + [(key(x), x)];
    DictOfSnoc(Keyed(items, key), (key(x), x));
  }

  /** The dictionary-building loop of `get_groups` and `get_music_sources`. */
  method BuildIndex<T>(items: seq<T>, key: T -> int) returns (m: map<int, T>)
    ensures m == Index(items, key)
  {
    m := map[];
    var i := 0;
    while i < |items|
      invariant 0 <= i <= |items|
      invariant m == Index(items[..i], key)
    {
      IndexSnoc(items[..i], key, items[i]);
      assert items[..i + 1] == items[..i] + [items[i]];
      m := m[key(items[i]) := items[i]];
      i := i + 1;
    }
    assert items[..i] == items;
  }

  /** A non-empty set of keys has a next key for an iteration to visit. */
  lemma HasMember(s: set<int>) returns (x: int)
    requires s != {}
    ensures x in s
  {
    if forall y :: y !in s {
      assert false;
    }
    x :| x in s;
  }

  // ---------------------------------------------------------------------------------------
  // Players

  /** What the manager knows of one player: its latest data and whether the last fetch saw it. */
  datatype PlayerState = PlayerState(data: PlayerData, available: bool)

  /** The ids a payload mentions. */
  ghost function PayloadIds(payload: seq<PlayerData>): set<int>
  {
    set i | 0 <= i < |payload| :: payload[i].playerId
  }

  /** The reconciliation of `get_players` (pyheos/heos.py lines 79-94) on the players' states:
      every id seen in the payload takes the last data sent for it and becomes available; every
      id known before and missing from the payload keeps its data and becomes unavailable. */
  function Merge(known: map<int, PlayerState>, payload: seq<PlayerData>): map<int, PlayerState>
  {
    var incoming := Index(payload, PlayerKey);
    map id | id in known.Keys + incoming.Keys ::
      if id in incoming then PlayerState(incoming[id], true) else known[id].(available := false)
  }

  /** The known players after the matching loop: those the payload names take their entry and
      become available, the others become unavailable. */
  function Reconcile(known: map<int, PlayerState>, incoming: map<int, PlayerData>): map<int, PlayerState>
  {
    map id | id in known :: Reconciled(known[id], id, incoming)
  }

  /** The state of the known player `id` after the matching loop. */
  function Reconciled(s: PlayerState, id: int, incoming: map<int, PlayerData>): PlayerState
  {
    if id in incoming then PlayerState(incoming[id], true) else s.(available := false)
  }

  /** Visiting the known id `id` takes it out of the created players still pending, if it is
      there: the pending players are always those not yet matched to a visited known id. */
  lemma PendingAfterVisit<T>(created: map<int, T>, known: set<int>, todo: set<int>, id: int)
    requires id in todo && todo <= known
    ensures id in created - (known - todo) <==> id in created
    ensures (created - (known - todo)) - {id} == created - (known - (todo - {id}))
  {
  }

  /** The states of the players a fetch adds. */
  function Arrivals(known: map<int, PlayerState>, incoming: map<int, PlayerData>): map<int, PlayerState>
  {
    map id | id in incoming.Keys - known.Keys :: PlayerState(incoming[id], true)
  }

  /** The merge is the matching of the known players followed by the update with the new ones. */
  lemma MergeInTwoSteps(known: map<int, PlayerState>, payload: seq<PlayerData>)
    ensures Merge(known, payload) == Reconcile(known, Index(payload, PlayerKey)) + Arrivals(known, Index(payload, PlayerKey))
  {
  }

  /** After a fetch the known ids are the old ones plus the payload's: no player is dropped. */
  lemma MergeKeys(known: map<int, PlayerState>, payload: seq<PlayerData>)
    ensures Merge(known, payload).Keys == known.Keys + PayloadIds(payload)
  {
    IndexSpec(payload, PlayerKey);
    var incoming := Index(payload, PlayerKey);
    forall id ensures id in incoming <==> id in PayloadIds(payload) {
      if id in PayloadIds(payload) {
        var i :| 0 <= i < |payload| && payload[i].playerId == id;
        assert PlayerKey(payload[i]) == id;
      }
    }
  }

  /** A known player is available after a fetch iff the payload names it; one it does not name
      keeps its old data. */
  lemma MergeAvailability(known: map<int, PlayerState>, payload: seq<PlayerData>, id: int)
    requires id in known
    ensures Merge(known, payload)[id].available <==> id in PayloadIds(payload)
    ensures id !in PayloadIds(payload) ==> Merge(known, payload)[id] == known[id].(available := false)
  {
    MergeKeys(known, payload);
    IndexSpec(payload, PlayerKey);
    if id in PayloadIds(payload) {
      var i :| 0 <= i < |payload| && payload[i].playerId == id;
      assert PlayerKey(payload[i]) == id;
    }
  }

  /** A player named in the payload takes the data of the last entry that names it. */
  lemma MergeTakesLastEntry(known: map<int, PlayerState>, payload: seq<PlayerData>, i: nat)
    requires i < |payload|
    requires forall j :: i < j < |payload| ==> payload[j].playerId != payload[i].playerId
    ensures payload[i].playerId in Merge(known, payload)
    ensures Merge(known, payload)[payload[i].playerId] == PlayerState(payload[i], true)
  {
    IndexSpec(payload, PlayerKey);
    var id := payload[i].playerId;
    assert PlayerKey(payload[i]) == id;
    var i' :| LastWithId(payload, PlayerKey, id, i') && Index(payload, PlayerKey)[id] == payload[i'];
    assert i' == i;
  }

  /** Fetching the same payload twice leaves what the first fetch left. */
  lemma MergeIdempotent(known: map<int, PlayerState>, payload: seq<PlayerData>)
    ensures Merge(Merge(known, payload), payload) == Merge(known, payload)
  {
    var once := Merge(known, payload);
    var incoming := Index(payload, PlayerKey);
    assert once.Keys + incoming.Keys == once.Keys;
    forall id | id in once ensures Merge(once, payload)[id] == once[id] {
      if id !in incoming {
        assert once[id] == known[id].(available := false);
      }
    }
  }

  /** `HeosPlayer`, abstracted to its id, the payload entry it last took and its `available`
      flag. The id is fixed when the player is built: `get_players` only ever hands a player an
      entry that carries its own id. */
  class HeosPlayer {
    const playerId: int
    var data: PlayerData
    var available: bool

    function State(): PlayerState
      reads this
    {
      PlayerState(data, available)
    }

    /** A new player starts out available. */
    constructor (data: PlayerData)
      ensures playerId == data.playerId && State() == PlayerState(data, true)
    {
      playerId := data.playerId;
      this.data := data;
      available := true;
    }

    /** `set_available`. */
    method SetAvailable(available: bool)
      modifies this
      ensures State() == old(State()).(available := available)
    {
      this.available := available;
    }

    /** `from_data`: the player takes the new payload entry. */
    method FromData(data: PlayerData)
      modifies this
      ensures State() == old(State()).(data := data)
    {
      this.data := data;
    }
  }

  // ---------------------------------------------------------------------------------------
  // Favourites, events and the signed-in user

  /** `get_favorites`: the payload's sources numbered from 1 in payload order. */
  function Favorites(payload: seq<SourceData>): map<int, SourceData>
  {
    if |payload| == 0 then map[]
    else Favorites(payload[..|payload| - 1])[|payload| := payload[|payload| - 1]]
  }

  /** The favourites are keyed 1 to n, one per payload entry, in payload order. */
  lemma {:induction false} FavoritesNumbering(payload: seq<SourceData>)
    ensures |Favorites(payload)| == |payload|
    ensures forall k :: k in Favorites(payload) <==> 1 <= k <= |payload|
    ensures forall i :: 0 <= i < |payload| ==> Favorites(payload)[i + 1] == payload[i]
  {
    if |payload| > 0 {
      var init := payload[..|payload| - 1];
      FavoritesNumbering(init);
      assert Favorites(payload).Keys == Favorites(init).Keys + {|payload|};
      assert |payload| !in Favorites(init);
      forall i | 0 <= i < |payload| ensures Favorites(payload)[i + 1] == payload[i] {
        if i < |init| {
          assert init[i] == payload[i];
        }
      }
    }
  }

  /** The kinds of event `_handle_event` distinguishes; the event names live in pyheos/const.py. */
  datatype EventKind = PlayersChanged | SourcesChanged | UserChanged | GroupsChanged | OtherEvent(command: string)

  /** An event from the device: its command and the messages it carries. */
  datatype HeosEvent = HeosEvent(kind: EventKind, messages: map<string, string>)

  /** `event.get_message(key)`: the message, or nothing when the event lacks it. */
  function GetMessage(event: HeosEvent, key: string): (r: Option<string>)
    ensures r.Some? <==> key in event.messages
    ensures r.Some? ==> r.value == event.messages[key]
  {
    if key in event.messages then Some(event.messages[key]) else None
  }

  /** The username after a user-changed event: the `un` message when the event says the user is
      signed in, otherwise none. */
  function UsernameAfter(event: HeosEvent): Option<string>
  {
    if "signed_in" in event.messages then GetMessage(event, "un") else None
  }

  /** `bool(username)`: a username that is present and not empty. */
  function SignedIn(username: Option<string>): bool
  {
    username.Some? && username.value != ""
  }

  /** A user-changed event signs the user in iff it says so and names a non-empty user. */
  lemma UserChangedSignsIn(event: HeosEvent)
    ensures SignedIn(UsernameAfter(event))
        <==> "signed_in" in event.messages && "un" in event.messages && event.messages["un"] != ""
  {
  }

  /** Whether `_handle_event` fetches the players: a players event once they are loaded, or a
      groups event once the groups are loaded while no player is known yet. */
  predicate RefetchesPlayers(kind: EventKind, playersLoaded: bool, groupsLoaded: bool, knownPlayers: nat)
  {
    || (kind == PlayersChanged && playersLoaded)
    || (kind == GroupsChanged && groupsLoaded && knownPlayers == 0)
  }

  // ---------------------------------------------------------------------------------------
  // The manager

  /** `Heos`: the loaded players, groups and music sources and the signed-in username. */
  class Heos {
    var players: map<int, HeosPlayer>
    var playersLoaded: bool
    var musicSources: map<int, SourceData>
    var musicSourcesLoaded: bool
    var signedInUsername: Option<string>
    var groups: map<int, GroupData>
    var groupsLoaded: bool
    /** The states of the known players, by id. */
    ghost var states: map<int, PlayerState>

    /** Each player is filed under its own id, so no object is filed twice, and `states` holds
        the state of every filed player. */
    ghost predicate Valid()
      reads this`players, this`states, players.Values
    {
      && (forall id :: id in players ==> players[id].playerId == id)
      && players.Keys == states.Keys
      && (forall id :: id in players ==> players[id].State() == states[id])
    }

    constructor ()
      ensures Valid() && players == map[] && states == map[] && !playersLoaded
      ensures musicSources == map[] && !musicSourcesLoaded
      ensures groups == map[] && !groupsLoaded
      ensures signedInUsername == None
    {
      players := map[];
      playersLoaded := false;
      musicSources := map[];
      musicSourcesLoaded := false;
      signedInUsername := None;
      groups := map[];
      groupsLoaded := false;
      states := map[];
    }

    /** `is_signed_in`: `bool` of the username. */
    function IsSignedIn(): bool
      reads this
    {
      SignedIn(signedInUsername)
    }

    /** The first loop of `get_players`: a new player object per payload entry, filed under its
        id (a later entry with the same id replaces the earlier one), and the data by id. */
    static method NewPlayers(payload: seq<PlayerData>) returns (created: map<int, HeosPlayer>, dataById: map<int, PlayerData>)
      ensures dataById == Index(payload, PlayerKey)
      ensures created.Keys == dataById.Keys
      ensures forall id :: id in created ==> fresh(created[id]) && created[id].playerId == id
      ensures forall id :: id in created ==> created[id].State() == PlayerState(dataById[id], true)
    {
      created, dataById := map[], map[];
      var i := 0;
      while i < |payload|
        invariant 0 <= i <= |payload|
        invariant dataById == Index(payload[..i], PlayerKey)
        invariant created.Keys == dataById.Keys
        invariant forall id :: id in created ==> fresh(created[id]) && created[id].playerId == id
        invariant forall id :: id in created ==> created[id].State() == PlayerState(dataById[id], true)
      {
        IndexSnoc(payload[..i], PlayerKey, payload[i]);
        assert payload[..i + 1] == payload[..i] + [payload[i]];
        var player := new HeosPlayer(payload[i]);
        created := created[payload[i].playerId := player];
        dataById := dataById[payload[i].playerId := payload[i]];
        i := i + 1;
      }
      assert payload[..i] == payload;
    }

    /** One iteration of the matching loop of `get_players` on the known player `id`: with its
        payload entry it becomes available and takes the entry, without one it becomes
        unavailable. No other player changes. */
    method MatchOne(id: int, dataById: map<int, PlayerData>)
      requires id in players && forall j :: j in players ==> players[j].playerId == j
      modifies players[id]
      ensures id in dataById ==> players[id].State() == PlayerState(dataById[id], true)
      ensures id !in dataById ==> players[id].State() == old(players[id].State()).(available := false)
      ensures forall j :: j in players && j != id ==> players[j].State() == old(players[j].State())
    {
      var player := players[id];
      if id in dataById {
        player.SetAvailable(true);
        player.FromData(dataById[id]);
      } else {
        player.SetAvailable(false);
      }
    }

    /** The second loop of `get_players`: each known player named by the payload is taken out
        of `created`, made available and given its new data; every other known player is made
        unavailable. What is left of `created` is the genuinely new players. */
    method MatchExisting(created: map<int, HeosPlayer>, dataById: map<int, PlayerData>) returns (added: map<int, HeosPlayer>)
      requires forall j :: j in players ==> players[j].playerId == j
      requires created.Keys == dataById.Keys
      modifies players.Values
      ensures added == created - players.Keys
      ensures forall id :: id in players ==> players[id].State() == Reconciled(old(players[id].State()), id, dataById)
    {
      added := created;
      var todo := players.Keys;
      while todo != {}
        invariant todo <= players.Keys
        invariant added == created - (players.Keys - todo)
        invariant forall id :: id in todo ==> players[id].State() == old(players[id].State())
        invariant forall id :: id in players && id !in todo ==> players[id].State() == Reconciled(old(players[id].State()), id, dataById)
        decreases |todo|
      {
        ghost var some := HasMember(todo);
        var id :| id in todo;
        PendingAfterVisit(created, players.Keys, todo, id);
        if id in added {
          added := added - {id};
        }
        MatchOne(id, dataById);
        todo := todo - {id};
      }
    }

    /** `self._players.update(players)`: the players left after matching are filed under
        their ids. */
    method Adopt(added: map<int, HeosPlayer>, ghost arrivals: map<int, PlayerState>)
      requires Valid()
      requires added.Keys == arrivals.Keys && added.Keys !! players.Keys
      requires forall id :: id in added ==> added[id].playerId == id && added[id].State() == arrivals[id]
      modifies this`players, this`states
      ensures Valid()
      ensures players == old(players) + added && states == old(states) + arrivals
    {
      players := players + added;
      states := states + arrivals;
      forall id | id in players ensures players[id].State() == states[id] {
        if id in added {
          assert players[id] == added[id];
        }
      }
    }

    /** The fetch and merge of `get_players` (pyheos/heos.py lines 78-94): the known player
        objects stay filed under their ids, the new ones are fresh objects. */
    method FetchPlayers(payload: seq<PlayerData>)
      requires Valid()
      modifies this`players, this`states, players.Values
      ensures Valid()
      ensures states == Merge(old(states), payload)
      ensures forall id :: id in old(players) ==> id in players && players[id] == old(players[id])
      ensures forall id :: id in players && id !in old(players) ==> fresh(players[id])
    {
      ghost var known := players;
      var created, dataById := NewPlayers(payload);
      assert forall id :: id in created ==> created[id] !in players.Values;
      var added := MatchExisting(created, dataById);
      assert players == known && added.Keys !! known.Keys;
      states := Reconcile(states, dataById);
      assert Valid();
      assert forall id :: id in added ==> added[id].playerId == id && added[id].State() == PlayerState(dataById[id], true);
      assert added.Keys == Arrivals(old(states), dataById).Keys;
      Adopt(added, Arrivals(old(states), dataById));
      assert players == known + added;
      MergeInTwoSteps(old(states), payload);
    }

    /** `get_players`: fetch only when no player is known yet or a refresh is asked for; then
        reconcile the payload with the known players, keeping their objects and adding new ones,
        and mark the players loaded. The result is the manager's own dictionary. */
    method GetPlayers(refresh: bool, payload: seq<PlayerData>) returns (r: map<int, HeosPlayer>)
      requires Valid()
      modifies this`players, this`states, this`playersLoaded, players.Values
      ensures Valid() && r == players
      ensures |old(players)| == 0 || refresh ==>
        && states == Merge(old(states), payload) && playersLoaded
        && (forall id :: id in old(players) ==> id in players && players[id] == old(players[id]))
        && (forall id :: id in players && id !in old(players) ==> fresh(players[id]))
      ensures !(|old(players)| == 0 || refresh) ==> players == old(players) && states == old(states) && playersLoaded == old(playersLoaded)
    {
      if |players| == 0 || refresh {
        FetchPlayers(payload);
        playersLoaded := true;
      }
      r := players;
    }

    /** `get_groups`: fetch only when the groups are not loaded or a refresh is asked for; then
        load the players if none are known, replace the groups wholesale with the payload's,
        keyed by group id, and mark them loaded. */
    method GetGroups(refresh: bool, playerPayload: seq<PlayerData>, groupPayload: seq<GroupData>) returns (r: map<int, GroupData>)
      requires Valid()
      modifies this`players, this`states, this`playersLoaded, this`groups, this`groupsLoaded, players.Values
      ensures Valid() && r == groups
      ensures !old(groupsLoaded) || refresh ==>
        && groups == Index(groupPayload, GroupKey)
        && groupsLoaded
        && (if |old(players)| == 0
            then states == Merge(old(states), playerPayload) && playersLoaded
              && (forall id :: id in players ==> fresh(players[id]))
            else players == old(players) && states == old(states) && playersLoaded == old(playersLoaded))
      ensures !(!old(groupsLoaded) || refresh) ==>
        && groups == old(groups) && groupsLoaded == old(groupsLoaded)
        && players == old(players) && states == old(states) && playersLoaded == old(playersLoaded)
    {
      if groupsLoaded && !refresh {
        return groups;
      }
      var _ := GetPlayers(false, playerPayload);
      var built := BuildIndex(groupPayload, GroupKey);
      groups := built;
      groupsLoaded := true;
      r := groups;
    }

    /** `get_music_sources`: fetch when no source is known or a refresh is asked for (the
        default); then rebuild the sources from the payload, keyed by source id, and mark them
        loaded. */
    method GetMusicSources(refresh: bool, payload: seq<SourceData>) returns (r: map<int, SourceData>)
      modifies this`musicSources, this`musicSourcesLoaded
      ensures r == musicSources
      ensures |old(musicSources)| == 0 || refresh ==> musicSources == Index(payload, SourceKey) && musicSourcesLoaded
      ensures !(|old(musicSources)| == 0 || refresh) ==> musicSources == old(musicSources) && musicSourcesLoaded == old(musicSourcesLoaded)
    {
      if |musicSources| != 0 && !refresh {
        return musicSources;
      }
      var built := BuildIndex(payload, SourceKey);
      musicSources := built;
      musicSourcesLoaded := true;
      r := musicSources;
    }

    /** The refetching branches of `_handle_event`: the players, sources or groups are fetched
        again on their own change event, once they are loaded; refetching the groups loads the
        players first when none are known. */
    method RefreshLoaded(kind: EventKind, playerPayload: seq<PlayerData>, sourcePayload: seq<SourceData>, groupPayload: seq<GroupData>)
      requires Valid()
      modifies this`players, this`states, this`playersLoaded, this`musicSources, this`musicSourcesLoaded
      modifies this`groups, this`groupsLoaded, players.Values
      ensures Valid()
      ensures RefetchesPlayers(kind, old(playersLoaded), old(groupsLoaded), |old(players)|) ==>
        && states == Merge(old(states), playerPayload) && playersLoaded
        && (forall id :: id in old(players) ==> id in players && players[id] == old(players[id]))
        && (forall id :: id in players && id !in old(players) ==> fresh(players[id]))
      ensures !RefetchesPlayers(kind, old(playersLoaded), old(groupsLoaded), |old(players)|) ==>
        players == old(players) && states == old(states) && playersLoaded == old(playersLoaded)
      ensures musicSourcesLoaded == old(musicSourcesLoaded) && groupsLoaded == old(groupsLoaded)
      ensures kind == SourcesChanged && old(musicSourcesLoaded) ==> musicSources == Index(sourcePayload, SourceKey)
      ensures kind != SourcesChanged || !old(musicSourcesLoaded) ==> musicSources == old(musicSources)
      ensures kind == GroupsChanged && old(groupsLoaded) ==> groups == Index(groupPayload, GroupKey)
      ensures kind != GroupsChanged || !old(groupsLoaded) ==> groups == old(groups)
    {
      if kind == PlayersChanged && playersLoaded {
        RefreshPlayers(playerPayload);
      } else {
        RefreshSourcesOrGroups(kind, playerPayload, sourcePayload, groupPayload);
      }
    }

    /** The players branch: a players event once the players are loaded refetches them. */
    method RefreshPlayers(playerPayload: seq<PlayerData>)
      requires Valid() && playersLoaded
      modifies this`players, this`states, this`playersLoaded, players.Values
      ensures Valid()
      ensures states == Merge(old(states), playerPayload) && playersLoaded
        && (forall id :: id in old(players) ==> id in players && players[id] == old(players[id]))
        && (forall id :: id in players && id !in old(players) ==> fresh(players[id]))
    {
      var _ := GetPlayers(true, playerPayload);
    }

    /** The sources and groups branches, reached when the players were not refetched. */
    method RefreshSourcesOrGroups(kind: EventKind, playerPayload: seq<PlayerData>, sourcePayload: seq<SourceData>, groupPayload: seq<GroupData>)
      requires Valid() && !(kind == PlayersChanged && playersLoaded)
      modifies this`players, this`states, this`playersLoaded, this`musicSources, this`musicSourcesLoaded
      modifies this`groups, this`groupsLoaded, players.Values
      ensures Valid()
      ensures kind == GroupsChanged && old(groupsLoaded) && |old(players)| == 0 ==>
        && states == Merge(old(states), playerPayload) && playersLoaded
        && (forall id :: id in players ==> fresh(players[id]))
      ensures !RefetchesPlayers(kind, old(playersLoaded), old(groupsLoaded), |old(players)|) ==>
        players == old(players) && states == old(states) && playersLoaded == old(playersLoaded)
      ensures musicSourcesLoaded == old(musicSourcesLoaded) && groupsLoaded == old(groupsLoaded)
      ensures kind == SourcesChanged && old(musicSourcesLoaded) ==> musicSources == Index(sourcePayload, SourceKey)
      ensures kind != SourcesChanged || !old(musicSourcesLoaded) ==> musicSources == old(musicSources)
      ensures kind == GroupsChanged && old(groupsLoaded) ==> groups == Index(groupPayload, GroupKey)
      ensures kind != GroupsChanged || !old(groupsLoaded) ==> groups == old(groups)
    {
      if kind == SourcesChanged && musicSourcesLoaded {
        var _ := GetMusicSources(true, sourcePayload);
      } else {
        RefreshGroups(kind, playerPayload, sourcePayload, groupPayload);
      }
    }

    /** The groups branch, reached when neither the players nor the sources were refetched. */
    method RefreshGroups(kind: EventKind, playerPayload: seq<PlayerData>, sourcePayload: seq<SourceData>, groupPayload: seq<GroupData>)
      requires Valid() && !(kind == PlayersChanged && playersLoaded) && !(kind == SourcesChanged && musicSourcesLoaded)
      modifies this`players, this`states, this`playersLoaded, this`musicSources, this`musicSourcesLoaded
      modifies this`groups, this`groupsLoaded, players.Values
      ensures Valid()
      ensures kind == GroupsChanged && old(groupsLoaded) && |old(players)| == 0 ==>
        && states == Merge(old(states), playerPayload) && playersLoaded
        && (forall id :: id in players ==> fresh(players[id]))
      ensures !RefetchesPlayers(kind, old(playersLoaded), old(groupsLoaded), |old(players)|) ==>
        players == old(players) && states == old(states) && playersLoaded == old(playersLoaded)
      ensures musicSourcesLoaded == old(musicSourcesLoaded) && groupsLoaded == old(groupsLoaded)
      ensures kind == SourcesChanged && old(musicSourcesLoaded) ==> musicSources == Index(sourcePayload, SourceKey)
      ensures kind != SourcesChanged || !old(musicSourcesLoaded) ==> musicSources == old(musicSources)
      ensures kind == GroupsChanged && old(groupsLoaded) ==> groups == Index(groupPayload, GroupKey)
      ensures kind != GroupsChanged || !old(groupsLoaded) ==> groups == old(groups)
    {
      if kind == GroupsChanged && groupsLoaded {
        var _ := GetGroups(true, playerPayload, groupPayload);
      }
    }

    /** The user branch of `_handle_event`: the username becomes the event's `un` when the
        event says `signed_in`, and none otherwise. */
    method ChangeUser(event: HeosEvent)
      modifies this`signedInUsername
      ensures signedInUsername == UsernameAfter(event)
      ensures IsSignedIn() <==> "signed_in" in event.messages && "un" in event.messages && event.messages["un"] != ""
    {
      signedInUsername := UsernameAfter(event);
    }

    /** `_handle_event`: a change of players, sources or groups refetches what is already
        loaded (with the payload the device would send); a user change sets the username; the
        event is always reported handled. Refetching the groups loads the players first when
        none are known, so a groups event can fetch the players too. */
    method HandleEvent(event: HeosEvent, playerPayload: seq<PlayerData>, sourcePayload: seq<SourceData>, groupPayload: seq<GroupData>)
      returns (handled: bool)
      requires Valid()
      modifies this`players, this`states, this`playersLoaded, this`musicSources, this`musicSourcesLoaded
      modifies this`signedInUsername, this`groups, this`groupsLoaded, players.Values
      ensures Valid() && handled
      ensures RefetchesPlayers(event.kind, old(playersLoaded), old(groupsLoaded), |old(players)|) ==>
        && states == Merge(old(states), playerPayload) && playersLoaded
        && (forall id :: id in old(players) ==> id in players && players[id] == old(players[id]))
        && (forall id :: id in players && id !in old(players) ==> fresh(players[id]))
      ensures !RefetchesPlayers(event.kind, old(playersLoaded), old(groupsLoaded), |old(players)|) ==>
        players == old(players) && states == old(states) && playersLoaded == old(playersLoaded)
      ensures musicSourcesLoaded == old(musicSourcesLoaded) && groupsLoaded == old(groupsLoaded)
      ensures event.kind == UserChanged ==>
        && signedInUsername == UsernameAfter(event)
        && (IsSignedIn() <==> "signed_in" in event.messages && "un" in event.messages && event.messages["un"] != "")
      ensures event.kind != UserChanged ==> signedInUsername == old(signedInUsername)
      ensures event.kind == SourcesChanged && old(musicSourcesLoaded) ==> musicSources == Index(sourcePayload, SourceKey)
      ensures event.kind != SourcesChanged || !old(musicSourcesLoaded) ==> musicSources == old(musicSources)
      ensures event.kind == GroupsChanged && old(groupsLoaded) ==> groups == Index(groupPayload, GroupKey)
      ensures event.kind != GroupsChanged || !old(groupsLoaded) ==> groups == old(groups)
    {
      if event.kind == UserChanged {
        ChangeUser(event);
      } else {
        RefreshLoaded(event.kind, playerPayload, sourcePayload, groupPayload);
      }
      handled := true;
    }
  }
}

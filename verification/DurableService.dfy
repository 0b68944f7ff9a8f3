// The store as objects: games updated in place under their lock, each method
// one step of DurableStore's machine. A game is an object with the fields of its
// record; the store finds games by id and keeps who is playing where. Every
// method is proved to leave the contents, and give the answer, that the machine
// gives for the same call.
module DurableService {
  import opened Prelude
  import opened DurableModels
  import opened DurableGame
  import opened DurableStore

  class MemoryGame<J(==)> {
    const gameId: nat
    const roomId: string
    const key: Key
    const initialState: J
    const rulesSchemaVersion: int
    const rules: J
    var active: bool
    var currentSequence: nat
    var currentRevision: int
    var ownershipEpoch: nat
    var ownerInstanceId: Option<string>
    var fencingTokenHash: Option<Digest>
    var leaseExpiresAt: Option<int>
    var startCommandId: Option<string>
    var events: seq<Entry<J>>
    var commands: map<(string, string), Stored<J>>

    constructor (r: Record<J>)
      ensures Snapshot() == r && gameId == r.gameId
    {
      gameId, roomId, key, initialState := r.gameId, r.roomId, r.key, r.initialState;
      rulesSchemaVersion, rules, active := r.rulesSchemaVersion, r.rules, r.active;
      currentSequence, currentRevision := r.currentSequence, r.currentRevision;
      ownershipEpoch, ownerInstanceId, fencingTokenHash := r.epoch, r.owner, r.tokenHash;
      leaseExpiresAt, startCommandId := r.expires, r.startCommand;
      events, commands := r.events, r.commands;
    }

    function Snapshot(): Record<J>
      reads this
    {
      Record(gameId, roomId, key, initialState, currentSequence, currentRevision, rulesSchemaVersion, rules, active,
             ownershipEpoch, ownerInstanceId, fencingTokenHash, leaseExpiresAt, startCommandId, events, commands)
    }
  }

  class InMemoryGameStore<S(!new), J(==, !new)> {
    const world: World<S, J>
    var games: map<nat, MemoryGame<J>>
    var activePlayers: map<string, Seat>

    function Contents(): Store<J>
      reads this, games.Values
    {
      Store(map id | id in games :: games[id].Snapshot(), activePlayers)
    }

    ghost predicate Valid()
      reads this, games.Values
    {
      && FaithfulWorld(world) && StoreOk(world, Contents())
      && forall id :: id in games ==> games[id].gameId == id
    }

    constructor (world: World<S, J>)
      requires FaithfulWorld(world)
      ensures Valid() && this.world == world && games == map[] && Contents() == Reached<S, J>(world, [])
    {
      this.world := world;
      games, activePlayers := map[], map[];
    }

    // _load_locked, replaying the journal.
    method LoadLocked(key: Key, game: MemoryGame<J>) returns (r: Loading<S>)
      ensures r == Load(world(key), key, game.Snapshot())
    {
      var d := world(key);
      if key != game.key || game.rulesSchemaVersion != d.rulesSchemaVersion || d.normalizeRules(game.rules) != game.rules {
        return LoadFailed(Incompatible);
      }
      var replayed := Replay(d, game.initialState, game.events);
      if !replayed.Fine? {
        return LoadFailed(Exception);
      }
      if |game.events| != game.currentSequence || d.revision(replayed.state) != game.currentRevision {
        return LoadFailed(Incompatible);
      }
      r := Loaded(replayed.state);
    }

    // The locked part of execute, on one game.
    method ExecuteLocked(game: MemoryGame<J>, key: Key, request: Request<J>, o: Ownership, now: int,
      mint: nat -> nat) returns (reply: Reply<S, J>)
      modifies game
      ensures (game.Snapshot(), reply) == DurableGame.Execute(world(key), key, old(game.Snapshot()), request,
              o, now, mint)
    {
      hide Load, Decide, ValidOwner;
      ghost var g := game.Snapshot();
      var loading := LoadLocked(key, game);
      if loading.LoadFailed? {
        return Failed(loading.error);
      }
      if !game.active {
        return Failed(Conflict);
      }
      if !ValidOwner(game.Snapshot(), o, now) {
        return Failed(StaleOwner);
      }
      var id := CommandKey(request);
      if id in game.commands {
        var stored := game.commands[id];
        if stored.fingerprint != FingerprintOf(request) {
          return Failed(Conflict);
        }
        return Executed(loading.state, game.currentSequence, game.currentRevision, game.ownershipEpoch,
            stored.receipt, [], true);
      }
      var verdict := Decide(world(key), game.Snapshot(), loading.state, request, mint);
      if verdict.Undecided? {
        return Failed(verdict.error);
      }
      game.commands := game.commands[id := Stored(FingerprintOf(request), verdict.receipt)];
      if verdict.entries != [] {
        game.events := game.events + verdict.entries;
        game.currentSequence := verdict.entries[|verdict.entries| - 1].sequence;
      }
      game.currentRevision := verdict.receipt.revision;
      assert verdict.entries == [] ==> g.events + verdict.entries == g.events;
      assert game.Snapshot() == WithReceipt(g, request, verdict.receipt, verdict.entries);
      reply := Executed(verdict.state, game.currentSequence, game.currentRevision, game.ownershipEpoch,
          verdict.receipt, verdict.entries, false);
    }

    method Execute(gameId: nat, key: Key, request: Request<J>, o: Ownership, now: int,
      mint: nat -> nat) returns (reply: Reply<S, J>)
      requires Valid()
      modifies if gameId in games then {games[gameId]} else {}
      ensures Valid() && games == old(games)
      ensures (Contents(), Replied(reply)) == Step(world, old(Contents()),
              OpExecute(key, gameId, request, o, now, mint))
    {
      hide FaithfulWorld, StoreOk, StoreGrows, DurableGame.Execute;
      StepKeeps(world, Contents(), OpExecute(key, gameId, request, o, now, mint));
      if gameId !in games {
        return Failed(NotFound);
      }
      var game := games[gameId];
      ghost var before := Contents();
      assert before.games[gameId] == game.Snapshot();
      reply := ExecuteLocked(game, key, request, o, now, mint);
      assert Contents() == Put(before, gameId, game.Snapshot());
    }

    method AcquireLocked(game: MemoryGame<J>, owner: string, lease: int, now: int,
      token: nat) returns (reply: Reply<S, J>)
      modifies game
      ensures (game.Snapshot(), reply) == DurableGame.Acquire<S, J>(old(game.Snapshot()), owner, lease, now, token)
    {
      if lease <= 0 {
        return Failed(BadArgument);
      }
      if game.leaseExpiresAt.Some? && game.leaseExpiresAt.value > now {
        return Failed(Conflict);
      }
      game.ownerInstanceId := Some(owner);
      game.ownershipEpoch := game.ownershipEpoch + 1;
      game.fencingTokenHash := Some(TokenHash(token));
      game.leaseExpiresAt := Some(now + lease);
      reply := Granted(Ownership(game.gameId, owner, game.ownershipEpoch, token, now + lease));
    }

    method Acquire(gameId: nat, owner: string, lease: int, now: int, token: nat) returns (reply: Reply<S, J>)
      requires Valid()
      modifies if gameId in games then {games[gameId]} else {}
      ensures Valid() && games == old(games)
      ensures (Contents(), Replied(reply)) == Step(world, old(Contents()), OpAcquire(gameId, owner, lease, now, token))
    {
      hide FaithfulWorld, StoreOk, StoreGrows, Grows, DurableGame.Acquire;
      StepKeeps(world, Contents(), OpAcquire(gameId, owner, lease, now, token));
      if gameId !in games {
        return Failed(NotFound);
      }
      var game := games[gameId];
      ghost var before := Contents();
      assert before.games[gameId] == game.Snapshot();
      reply := AcquireLocked(game, owner, lease, now, token);
      assert Contents() == Put(before, gameId, game.Snapshot());
    }

    method Renew(o: Ownership, lease: int, now: int, stamped: int) returns (reply: Reply<S, J>)
      requires Valid()
      modifies if o.gameId in games then {games[o.gameId]} else {}
      ensures Valid() && games == old(games)
      ensures (Contents(), Replied(reply)) == Step(world, old(Contents()), OpRenew(o, lease, now, stamped))
    {
      hide FaithfulWorld, StoreOk, StoreGrows, ValidOwner;
      StepKeeps(world, Contents(), OpRenew(o, lease, now, stamped));
      if o.gameId !in games {
        return Failed(NotFound);
      }
      var game := games[o.gameId];
      ghost var before := Contents();
      assert before.games[o.gameId] == game.Snapshot();
      SamePut(before, o.gameId);
      if lease <= 0 {
        return Failed(BadArgument);
      }
      if !ValidOwner(game.Snapshot(), o, now) {
        return Failed(StaleOwner);
      }
      game.leaseExpiresAt := Some(stamped + lease);
      assert Contents() == Put(before, o.gameId, game.Snapshot());
      reply := Granted(o.(expires := stamped + lease));
    }

    // start: a retry opens the game already there; otherwise a fresh record,
    // every player reserved, epoch one.
    method Start(key: Key, gameId: nat, room: string, rules: J, initial: Option<S>, command: string, owner: string,
                 roster: seq<(string, int)>, lease: int, now: int, token: nat) returns (answer: Answer<S, J>)
      requires Valid()
      modifies this
      ensures Valid() && old(games.Keys) <= games.Keys
      ensures (Contents(), answer) == Step(world, old(Contents()),
              OpStart(key, gameId, room, rules, initial, command, owner, roster, lease, now, token))
    {
      hide FaithfulWorld, StoreOk, StoreGrows, Load, PlayersOk, Prepare, Reservations, Seated, SameSetup;
      StepKeeps(world, Contents(), OpStart(key, gameId, room, rules, initial, command, owner, roster, lease,
          now, token));
      if lease <= 0 {
        return Replied(Failed(BadArgument));
      }
      if !PlayersOk(roster) {
        return Replied(Failed(Conflict));
      }
      ghost var before := Contents();
      if gameId in games {
        assert before.games[gameId] == games[gameId].Snapshot();
        answer := StartAgain(key, games[gameId], gameId, room, Prepare(world(key), rules, roster, initial),
            command, roster);
      } else {
        if exists i :: 0 <= i < |roster| && roster[i].0 in activePlayers {
          return Replied(Failed(Conflict));
        }
        answer := StartNew(key, gameId, room, Prepare(world(key), rules, roster, initial), command, owner,
            roster, lease, now, token);
      }
    }

    method StartAgain(key: Key, game: MemoryGame<J>, gameId: nat, room: string, setup: Setup<S, J>,
      command: string, roster: seq<(string, int)>)
      returns (answer: Answer<S, J>)
      ensures var g := game.Snapshot();
              answer == if g.key != key then Replied(Failed(Incompatible))
                        else if !SameSetup(world(key), g, room, setup) || g.startCommand != Some(command)
                                || Reservations(activePlayers, gameId) != Elems(roster) then Replied(Failed(Conflict))
                        else Opening(world(key), key, g, None, false)
    {
      hide Load, Reservations, SameSetup;
      if game.key != key {
        return Replied(Failed(Incompatible));
      }
      if !SameSetup(world(key), game.Snapshot(), room, setup) || game.startCommandId != Some(command)
         || Reservations(activePlayers, gameId) != Elems(roster) {
        return Replied(Failed(Conflict));
      }
      answer := OpenLocked(key, game, None, false);
    }

    method OpenLocked(key: Key, game: MemoryGame<J>, ownership: Option<Ownership>,
      created: bool) returns (answer: Answer<S, J>)
      ensures answer == Opening(world(key), key, game.Snapshot(), ownership, created)
    {
      hide Load;
      var loading := LoadLocked(key, game);
      if loading.LoadFailed? {
        return Replied(Failed(loading.error));
      }
      answer := Opened(loading.state, game.currentSequence, game.currentRevision, ownership, created);
    }

    method StartNew(key: Key, gameId: nat, room: string, setup: Setup<S, J>, command: string, owner: string,
                    roster: seq<(string, int)>, lease: int, now: int, token: nat) returns (answer: Answer<S, J>)
      requires gameId !in games && forall id :: id in games ==> games[id].gameId == id
      modifies this
      ensures games.Keys == old(games.Keys) + {gameId} && forall id :: id in games ==> games[id].gameId == id
      ensures var g := NewRecord(world(key), key, gameId, room, setup).(
                epoch := 1, owner := Some(owner), tokenHash := Some(TokenHash(token)),
                expires := Some(now + lease), startCommand := Some(command));
              && Contents() == Store(old(Contents()).games[gameId := g],
                 Seated(old(activePlayers), gameId, room, roster))
              && answer == Opening(world(key), key, g, Some(Ownership(gameId, owner, 1, token, now + lease)), true)
    {
      hide Load, Seated, Opening, NewRecord;
      var record := NewRecord(world(key), key, gameId, room, setup).(
        epoch := 1, owner := Some(owner), tokenHash := Some(TokenHash(token)),
        expires := Some(now + lease), startCommand := Some(command));
      NewRecordId(world(key), key, gameId, room, setup);
      var game := AddGame(record);
      ReservePlayers(gameId, room, roster);
      answer := OpenLocked(key, game, Some(Ownership(gameId, owner, 1, token, now + lease)), true);
    }

    // self.games[game_id] = game
    method AddGame(record: Record<J>) returns (game: MemoryGame<J>)
      requires record.gameId !in games && forall id :: id in games ==> games[id].gameId == id
      modifies this`games
      ensures fresh(game) && game.Snapshot() == record
      ensures games == old(games)[record.gameId := game] && forall id :: id in games ==> games[id].gameId == id
      ensures Contents() == old(Contents()).(games := old(Contents()).games[record.gameId := record])
    {
      hide MemoryGame.Snapshot;
      ghost var before := Contents();
      game := new MemoryGame(record);
      games := games[record.gameId := game];
      forall id | id in games && id != record.gameId ensures games[id].Snapshot() == before.games[id] {
        assert games[id] == old(games)[id];
      }
      assert Contents().games == before.games[record.gameId := record];
    }

    // for user, seat in players: self.active_players[user] = ...
    method ReservePlayers(gameId: nat, room: string, roster: seq<(string, int)>)
      modifies this`activePlayers
      ensures activePlayers == Seated(old(activePlayers), gameId, room, roster)
    {
      ghost var before := activePlayers;
      assert roster[..0] == [];
      for i := 0 to |roster|
        invariant activePlayers == Seated(before, gameId, room, roster[..i])
      {
        assert roster[..i + 1][..i] == roster[..i];
        activePlayers := activePlayers[roster[i].0 := Seat(gameId, room, roster[i].1)];
      }
      assert roster[..|roster|] == roster;
    }
  }

  lemma NewRecordId<S, J>(d: Definition<S, J>, key: Key, gameId: nat, room: string, setup: Setup<S, J>)
    ensures NewRecord(d, key, gameId, room, setup).gameId == gameId
  {
  }

  lemma SamePut<J>(st: Store<J>, gameId: nat)
    requires gameId in st.games
    ensures Put(st, gameId, st.games[gameId]) == st
  {
    assert st.games[gameId := st.games[gameId]] == st.games;
  }
}

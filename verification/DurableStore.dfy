// The in-memory store: games by id, active players, and every run of creations,
// starts, commands and lease changes by any number of servers.
module DurableStore {
  import opened Prelude
  import opened DurableModels
  import opened DurableGame

  // A definition is determined by the key it is registered under.
  type World<!S, !J> = Key -> Definition<S, J>

  ghost predicate FaithfulWorld<S(!new), J>(world: World<S, J>) {
    forall k :: Faithful(world(k))
  }

  datatype Seat = Seat(gameId: nat, roomId: string, seat: int)
  datatype Store<J> = Store(games: map<nat, Record<J>>, players: map<string, Seat>)

  datatype Answer<+S, +J> =
    | Opened(state: S, sequence: nat, revision: int, ownership: Option<Ownership>, created: bool)
    | Replied(reply: Reply<S, J>)
    | Released

  // ---- creating and starting

  datatype Setup<+S, +J> = Setup(rules: J, encoded: J, revision: int)

  // _prepare_game
  function Prepare<S, J>(d: Definition<S, J>, rules: J, players: seq<(string, int)>, initial: Option<S>): Setup<S, J> {
    var normalized := d.normalizeRules(rules);
    var state := if initial.Some? then initial.value else d.initialState(normalized, players);
    var encoded := d.encode(state);
    Setup(normalized, encoded, d.revision(d.decode(encoded)))
  }

  function NewRecord<S, J>(d: Definition<S, J>, key: Key, gameId: nat, room: string, setup: Setup<S, J>): Record<J> {
    Record(gameId, room, key, setup.encoded, 0, setup.revision, d.rulesSchemaVersion, setup.rules, true,
           0, None, None, None, None, [], map[])
  }

  predicate SameSetup<S, J(==)>(d: Definition<S, J>, g: Record<J>, room: string, setup: Setup<S, J>) {
    g.roomId == room && g.initialState == setup.encoded && g.rulesSchemaVersion == d.rulesSchemaVersion
        && g.rules == setup.rules
  }

  function Opening<S, J(==)>(d: Definition<S, J>, key: Key, g: Record<J>, ownership: Option<Ownership>,
    created: bool): Answer<S, J> {
    match Load(d, key, g)
    case LoadFailed(error) => Replied(Failed(error))
    case Loaded(state) => Opened(state, g.currentSequence, g.currentRevision, ownership, created)
  }

  // create
  function Create<S, J(==)>(world: World<S, J>, key: Key, st: Store<J>, gameId: nat, room: string, rules: J,
    initial: Option<S>)
    : (Store<J>, Answer<S, J>)
  {
    var d := world(key);
    var setup := Prepare(d, rules, [], initial);
    if gameId in st.games then
      var g := st.games[gameId];
      if g.key != key then (st, Replied(Failed(Incompatible)))
      else if !SameSetup(d, g, room, setup) then (st, Replied(Failed(Conflict)))
      else (st, Opening(d, key, g, None, false))
    else
      var g := NewRecord(d, key, gameId, room, setup);
      (st.(games := st.games[gameId := g]), Opening(d, key, g, None, true))
  }

  function Users(players: seq<(string, int)>): (r: seq<string>)
    ensures |r| == |players| && forall i :: 0 <= i < |r| ==> r[i] == players[i].0
  {
    seq(|players|, i requires 0 <= i < |players| => players[i].0)
  }

  function Seats(players: seq<(string, int)>): (r: seq<int>)
    ensures |r| == |players| && forall i :: 0 <= i < |r| ==> r[i] == players[i].1
  {
    seq(|players|, i requires 0 <= i < |players| => players[i].1)
  }

  // _validate_players
  predicate PlayersOk(players: seq<(string, int)>) {
    players != [] && NoDup(Users(players)) && NoDup(Seats(players))
        && forall i :: 0 <= i < |players| ==> players[i].0 != "" && players[i].1 > 0
  }

  function Seated(players: map<string, Seat>, gameId: nat, room: string,
    roster: seq<(string, int)>): (r: map<string, Seat>)
    ensures r.Keys == players.Keys + Elems(Users(roster))
    ensures NoDup(Users(roster)) ==>
              forall u :: u in r ==>
                if u in Elems(Users(roster)) then exists i ::
                    0 <= i < |roster| && roster[i].0 == u && r[u] == Seat(gameId, room, roster[i].1)
                else u in players && r[u] == players[u]
  {
    if roster == [] then players
    else
      var init, last := roster[..|roster| - 1], roster[|roster| - 1];
      SeatedStep(init, last, roster);
      var before := Seated(players, gameId, room, init);
      before[last.0 := Seat(gameId, room, last.1)]
  }

  lemma SeatedStep(init: seq<(string, int)>, last: (string, int), roster: seq<(string, int)>)
    requires roster == init + [last]
    ensures Elems(Users(roster)) == Elems(Users(init)) + {last.0}
    ensures NoDup(Users(roster)) ==> NoDup(Users(init)) && last.0 !in Elems(Users(init))
  {
    assert Users(roster) == Users(init) + [last.0];
    NoDupConcat(Users(init), [last.0]);
    ElemsConcat(Users(init), [last.0]);
    assert last.0 in Elems([last.0]);
  }

  function Reservations(players: map<string, Seat>, gameId: nat): set<(string, int)> {
    set u | u in players && players[u].gameId == gameId :: (u, players[u].seat)
  }

  // start: creation, reservation of every player and the first lease in one step.
  function Start<S, J(==)>(world: World<S, J>, key: Key, st: Store<J>, gameId: nat, room: string, rules: J,
    initial: Option<S>,
                           command: string, owner: string, roster: seq<(string, int)>, lease: int, now: int, token: nat)
    : (Store<J>, Answer<S, J>)
  {
    if lease <= 0 then (st, Replied(Failed(BadArgument)))
    else if !PlayersOk(roster) then (st, Replied(Failed(Conflict)))
    else
      var d := world(key);
      var setup := Prepare(d, rules, roster, initial);
      if gameId in st.games then
        var g := st.games[gameId];
        if g.key != key then (st, Replied(Failed(Incompatible)))
        else if !SameSetup(d, g, room, setup) || g.startCommand != Some(command) then (st, Replied(Failed(Conflict)))
        else if Reservations(st.players, gameId) != Elems(roster) then (st, Replied(Failed(Conflict)))
        else (st, Opening(d, key, g, None, false))
      else if exists i :: 0 <= i < |roster| && roster[i].0 in st.players then (st, Replied(Failed(Conflict)))
      else
        var g := NewRecord(d, key, gameId, room, setup).(
          epoch := 1, owner := Some(owner), tokenHash := Some(TokenHash(token)),
          expires := Some(now + lease), startCommand := Some(command));
        (Store(st.games[gameId := g], Seated(st.players, gameId, room, roster)),
         Opening(d, key, g, Some(Ownership(gameId, owner, 1, token, now + lease)), true))
  }

  // release_players
  function Release<J>(st: Store<J>, gameId: nat): Store<J> {
    st.(players := map u | u in st.players && st.players[u].gameId != gameId :: st.players[u])
  }

  // ---- one operation by some server

  datatype Op<S, J> =
    | OpCreate(key: Key, gameId: nat, room: string, rules: J, initial: Option<S>)
    | OpStart(key: Key, gameId: nat, room: string, rules: J, initial: Option<S>, command: string, owner: string,
              roster: seq<(string, int)>, lease: int, now: int, token: nat)
    | OpExecute(key: Key, gameId: nat, request: Request<J>, ownership: Ownership, now: int, mint: nat -> nat)
    | OpAcquire(gameId: nat, owner: string, lease: int, now: int, token: nat)
    | OpRenew(ownership: Ownership, lease: int, now: int, stamped: int)
    | OpRelease(gameId: nat)

  function Put<J>(st: Store<J>, gameId: nat, g: Record<J>): Store<J> {
    st.(games := st.games[gameId := g])
  }

  function Step<S, J(==)>(world: World<S, J>, st: Store<J>, op: Op<S, J>): (Store<J>, Answer<S, J>) {
    match op
    case OpCreate(key, gameId, room, rules, initial) => Create(world, key, st, gameId, room, rules, initial)
    case OpStart(key, gameId, room, rules, initial, command, owner, roster, lease, now, token) =>
      Start(world, key, st, gameId, room, rules, initial, command, owner, roster, lease, now, token)
    case OpRelease(gameId) => (Release(st, gameId), Released)
    case OpExecute(key, gameId, request, o, now, mint) =>
      if gameId !in st.games then (st, Replied(Failed(NotFound)))
      else
        var (g, reply) := Execute(world(key), key, st.games[gameId], request, o, now, mint);
        (Put(st, gameId, g), Replied(reply))
    case OpAcquire(gameId, owner, lease, now, token) =>
      if gameId !in st.games then (st, Replied(Failed(NotFound)))
      else
        var (g, reply) := Acquire<S, J>(st.games[gameId], owner, lease, now, token);
        (Put(st, gameId, g), Replied(reply))
    case OpRenew(o, lease, now, stamped) =>
      if o.gameId !in st.games then (st, Replied(Failed(NotFound)))
      else
        var (g, reply) := Renew<S, J>(st.games[o.gameId], o, lease, now, stamped);
        (Put(st, o.gameId, g), Replied(reply))
  }

  // ---- what every run keeps

  ghost predicate GameOk<S, J>(world: World<S, J>, st: Store<J>, id: nat)
    requires id in st.games
  {
    st.games[id].gameId == id && RecordOk(world(st.games[id].key), st.games[id])
  }

  ghost predicate StoreOk<S, J>(world: World<S, J>, st: Store<J>) {
    forall id :: id in st.games ==> GameOk(world, st, id)
  }

  // Games only appear, and each only grows.
  ghost predicate StoreGrows<J>(st: Store<J>, later: Store<J>) {
    forall id :: id in st.games ==> id in later.games && Grows(st.games[id], later.games[id])
  }

  lemma NewRecordOk<S, J>(d: Definition<S, J>, g: Record<J>)
    requires g.events == [] && g.currentSequence == 0 && g.commands == map[] && LeaseOk(g)
    requires d.revision(d.decode(g.initialState)) == g.currentRevision
    ensures RecordOk(d, g)
  {
  }

  lemma AddKeeps<S(!new), J>(world: World<S, J>, st: Store<J>, gameId: nat, g: Record<J>)
    requires StoreOk(world, st) && gameId !in st.games && g.gameId == gameId && RecordOk(world(g.key), g)
    ensures StoreOk(world, Put(st, gameId, g)) && StoreGrows(st, Put(st, gameId, g))
  {
    hide RecordOk;
    var t := Put(st, gameId, g);
    forall id | id in t.games ensures GameOk(world, t, id) {
      if id != gameId { assert GameOk(world, st, id); }
    }
    forall id | id in st.games ensures Grows(st.games[id], t.games[id]) { GrowsSelf(st.games[id]); }
  }

  lemma PutKeeps<S(!new), J>(world: World<S, J>, st: Store<J>, gameId: nat, g: Record<J>)
    requires StoreOk(world, st) && gameId in st.games && Grows(st.games[gameId], g) && RecordOk(world(g.key), g)
    ensures StoreOk(world, Put(st, gameId, g)) && StoreGrows(st, Put(st, gameId, g))
  {
    hide RecordOk;
    var t := Put(st, gameId, g);
    assert GameOk(world, st, gameId);
    forall id | id in t.games ensures GameOk(world, t, id) {
      if id != gameId { assert GameOk(world, st, id); }
    }
    forall id | id in st.games ensures Grows(st.games[id], t.games[id]) { GrowsSelf(st.games[id]); }
  }

  lemma SelfKeeps<J>(st: Store<J>, t: Store<J>)
    requires t.games == st.games
    ensures StoreGrows(st, t)
  {
    forall id | id in st.games ensures Grows(st.games[id], t.games[id]) { GrowsSelf(st.games[id]); }
  }

  lemma StepKeeps<S(!new), J>(world: World<S, J>, st: Store<J>, op: Op<S, J>)
    requires FaithfulWorld(world) && StoreOk(world, st)
    ensures StoreOk(world, Step(world, st, op).0) && StoreGrows(st, Step(world, st, op).0)
  {
    hide FaithfulWorld, RecordOk, Load, Prepare, Seated, Reservations, PlayersOk, Execute, Acquire, Renew,
      Grows, Opening;
    match op
    case OpCreate(key, gameId, room, rules, initial) => CreateKeeps(world, st, op);
    case OpStart(key, gameId, room, rules, initial, command, owner, roster, lease, now,
        token) => StartKeeps(world, st, op);
    case OpRelease(gameId) =>
      SelfKeeps(st, Release(st, gameId));
      SameGames(world, st, Release(st, gameId));
    case OpExecute(key, gameId, request, o, now, mint) =>
      SelfKeeps(st, st);
      if gameId in st.games {
        assert GameOk(world, st, gameId);
        ExecuteAny(world, key, st.games[gameId], request, o, now, mint);
        PutKeeps(world, st, gameId, Execute(world(key), key, st.games[gameId], request, o, now, mint).0);
      }
    case OpAcquire(gameId, owner, lease, now, token) =>
      SelfKeeps(st, st);
      if gameId in st.games {
        assert GameOk(world, st, gameId);
        LeaseKeeps(world(st.games[gameId].key), st.games[gameId], owner, lease, now, token);
        PutKeeps(world, st, gameId, Acquire<S, J>(st.games[gameId], owner, lease, now, token).0);
      }
    case OpRenew(o, lease, now, stamped) =>
      SelfKeeps(st, st);
      if o.gameId in st.games {
        assert GameOk(world, st, o.gameId);
        RenewalKeeps(world(st.games[o.gameId].key), st.games[o.gameId], o, lease, now, stamped);
        PutKeeps(world, st, o.gameId, Renew<S, J>(st.games[o.gameId], o, lease, now, stamped).0);
      }
  }

  // A call with another key is refused before it touches anything.
  lemma ExecuteAny<S(!new), J>(world: World<S, J>, key: Key, g: Record<J>, request: Request<J>, o: Ownership,
    now: int, mint: nat -> nat)
    requires FaithfulWorld(world) && RecordOk(world(g.key), g)
    ensures var t := Execute(world(key), key, g, request, o, now, mint).0;
            Grows(g, t) && t.key == g.key && RecordOk(world(t.key), t)
  {
    hide RecordOk, Decide, Replayed, ValidOwner;
    assert Faithful(world(g.key));
    GrowsSelf(g);
    if key == g.key {
      ExecuteKeeps(world(key), key, g, request, o, now, mint);
    }
  }

  lemma LeaseKeeps<S, J>(d: Definition<S, J>, g: Record<J>, owner: string, lease: int, now: int, token: nat)
    requires RecordOk(d, g)
    ensures var t := Acquire<S, J>(g, owner, lease, now, token).0;
            Grows(g, t) && t.key == g.key && RecordOk(d, t)
  {
    hide Replayed, InRange;
    var t := Acquire<S, J>(g, owner, lease, now, token).0;
    assert t.events == g.events && t.commands == g.commands;
  }

  lemma RenewalKeeps<S, J>(d: Definition<S, J>, g: Record<J>, o: Ownership, lease: int, now: int, stamped: int)
    requires RecordOk(d, g)
    ensures var t := Renew<S, J>(g, o, lease, now, stamped).0;
            Grows(g, t) && t.key == g.key && RecordOk(d, t)
  {
    hide Replayed, InRange;
    var t := Renew<S, J>(g, o, lease, now, stamped).0;
    assert t.events == g.events && t.commands == g.commands;
  }

  lemma SameGames<S(!new), J>(world: World<S, J>, st: Store<J>, t: Store<J>)
    requires StoreOk(world, st) && t.games == st.games
    ensures StoreOk(world, t)
  {
    hide RecordOk;
    forall id | id in t.games ensures GameOk(world, t, id) { assert GameOk(world, st, id); }
  }

  lemma CreateKeeps<S(!new), J>(world: World<S, J>, st: Store<J>, op: Op<S, J>)
    requires StoreOk(world, st) && op.OpCreate?
    ensures StoreOk(world, Step(world, st, op).0) && StoreGrows(st, Step(world, st, op).0)
  {
    hide StoreOk, StoreGrows, Load, RecordOk, Opening;
    SelfKeeps(st, st);
    var d := world(op.key);
    var setup := Prepare(d, op.rules, [], op.initial);
    var g := NewRecord(d, op.key, op.gameId, op.room, setup);
    if op.gameId !in st.games {
      NewRecordOk(d, g);
      AddKeeps(world, st, op.gameId, g);
    }
  }

  lemma StartKeeps<S(!new), J>(world: World<S, J>, st: Store<J>, op: Op<S, J>)
    requires StoreOk(world, st) && op.OpStart?
    ensures StoreOk(world, Step(world, st, op).0) && StoreGrows(st, Step(world, st, op).0)
  {
    hide StoreOk, StoreGrows, Load, RecordOk, Opening, Seated, PlayersOk, Reservations, SameSetup;
    SelfKeeps(st, st);
    var t := Step(world, st, op).0;
    if t != st {
      var d := world(op.key);
      var setup := Prepare(d, op.rules, op.roster, op.initial);
      var g := NewRecord(d, op.key, op.gameId, op.room, setup).(
        epoch := 1, owner := Some(op.owner), tokenHash := Some(TokenHash(op.token)), expires := Some(op.now + op.lease),
        startCommand := Some(op.command));
      NewRecordOk(d, g);
      AddKeeps(world, st, op.gameId, g);
      assert t.games == Put(st, op.gameId, g).games;
      SameGames(world, Put(st, op.gameId, g), t);
      GamesGrow(st, Put(st, op.gameId, g), t);
    }
  }

  lemma GamesGrow<J>(st: Store<J>, mid: Store<J>, t: Store<J>)
    requires StoreGrows(st, mid) && t.games == mid.games
    ensures StoreGrows(st, t)
  {
  }

  // ---- runs

  function Reached<S, J(==)>(world: World<S, J>, ops: seq<Op<S, J>>): Store<J> {
    if ops == [] then Store(map[], map[]) else Step(world, Reached(world, ops[..|ops| - 1]), ops[|ops| - 1]).0
  }

  // Every store reached is sound: journals numbered from one, replay giving the
  // current revision, receipts covering the journal.
  lemma {:induction false} RunOk<S(!new), J>(world: World<S, J>, ops: seq<Op<S, J>>)
    requires FaithfulWorld(world)
    ensures StoreOk(world, Reached(world, ops))
  {
    hide Step, FaithfulWorld;
    if ops != [] {
      RunOk(world, ops[..|ops| - 1]);
      StepKeeps(world, Reached(world, ops[..|ops| - 1]), ops[|ops| - 1]);
    }
  }

  // From any point of a run to any later one every game only grows.
  lemma {:induction false} RunGrows<S(!new), J>(world: World<S, J>, ops: seq<Op<S, J>>, i: nat)
    requires FaithfulWorld(world) && i <= |ops|
    ensures StoreGrows(Reached(world, ops[..i]), Reached(world, ops))
  {
    hide Step, FaithfulWorld, Grows;
    if i == |ops| {
      assert ops[..i] == ops;
      SelfKeeps(Reached(world, ops), Reached(world, ops));
    } else {
      var init := ops[..|ops| - 1];
      assert init[..i] == ops[..i];
      RunGrows(world, init, i);
      RunOk(world, init);
      StepKeeps(world, Reached(world, init), ops[|ops| - 1]);
      StoreGrowsThrough(Reached(world, ops[..i]), Reached(world, init), Reached(world, ops));
    }
  }

  lemma StoreGrowsThrough<J>(a: Store<J>, b: Store<J>, c: Store<J>)
    requires StoreGrows(a, b) && StoreGrows(b, c)
    ensures StoreGrows(a, c)
  {
    forall id | id in a.games ensures id in c.games && Grows(a.games[id], c.games[id]) {
      GrowsThrough(a.games[id], b.games[id], c.games[id]);
    }
  }

  // The answer to the i-th operation of a run.
  function AnswerAt<S, J(==)>(world: World<S, J>, ops: seq<Op<S, J>>, i: nat): Answer<S, J>
    requires i < |ops|
  {
    Step(world, Reached(world, ops[..i]), ops[i]).1
  }

  predicate Commits<S, J>(answer: Answer<S, J>) {
    answer.Replied? && answer.reply.Executed? && !answer.reply.duplicate
  }

  predicate Grants<S, J>(answer: Answer<S, J>) {
    answer.Replied? && answer.reply.Granted?
  }

  // The epochs of committed commands never go back along a run.
  lemma EpochsRise<S(!new), J>(world: World<S, J>, ops: seq<Op<S, J>>, i: nat, j: nat)
    requires FaithfulWorld(world) && i < j < |ops| && ops[i].OpExecute? && ops[j].OpExecute?
             && ops[i].gameId == ops[j].gameId
    requires Commits(AnswerAt(world, ops, i)) && Commits(AnswerAt(world, ops, j))
    ensures ops[i].ownership.epoch <= ops[j].ownership.epoch
  {
    hide FaithfulWorld, Decide, Load, Reached;
    assert ops[..j][..i] == ops[..i];
    RunGrows(world, ops[..j], i);
    var a, b := Reached(world, ops[..i]), Reached(world, ops[..j]);
    assert Grows(a.games[ops[i].gameId], b.games[ops[i].gameId]);
  }

  // Once a new epoch is granted, every ownership of an earlier epoch is fenced
  // off for the rest of the run: it neither executes nor renews.
  lemma FencedForever<S(!new), J>(world: World<S, J>, ops: seq<Op<S, J>>, i: nat, j: nat)
    requires FaithfulWorld(world) && i < j < |ops|
    requires ops[i].OpAcquire? && Grants(AnswerAt(world, ops, i))
    requires (ops[j].OpExecute? && ops[j].gameId == ops[i].gameId)
             || (ops[j].OpRenew? && ops[j].ownership.gameId == ops[i].gameId)
    requires ops[j].ownership.epoch < AnswerAt(world, ops, i).reply.ownership.epoch
    ensures AnswerAt(world, ops, j).Replied? && AnswerAt(world, ops, j).reply.Failed?
    ensures Reached(world, ops[..j + 1]).games == Reached(world, ops[..j]).games
  {
    hide FaithfulWorld, Step;
    assert ops[..i + 1][..i] == ops[..i] && ops[..j + 1][..j] == ops[..j] && ops[..j][..i + 1] == ops[..i + 1];
    RunGrows(world, ops[..j], i + 1);
    hide Reached;
    AcquireBumps(world, Reached(world, ops[..i]), ops[i]);
    var b := Reached(world, ops[..j]);
    assert Grows(Reached(world, ops[..i + 1]).games[ops[i].gameId], b.games[ops[i].gameId]);
    FencedStep(world, b, ops[j], ops[i].gameId);
  }

  lemma AcquireBumps<S, J>(world: World<S, J>, st: Store<J>, op: Op<S, J>)
    requires op.OpAcquire? && Grants(Step(world, st, op).1)
    ensures op.gameId in st.games && op.gameId in Step(world, st, op).0.games
    ensures Step(world, st, op).0.games[op.gameId].epoch == Step(world, st, op).1.reply.ownership.epoch
  {
  }

  lemma FencedStep<S, J>(world: World<S, J>, st: Store<J>, op: Op<S, J>, gameId: nat)
    requires gameId in st.games
    requires (op.OpExecute? && op.gameId == gameId) || (op.OpRenew? && op.ownership.gameId == gameId)
    requires op.ownership.epoch < st.games[gameId].epoch
    ensures var (t, answer) := Step(world, st, op); answer.Replied? && answer.reply.Failed? && t.games == st.games
  {
    hide Decide, Load;
  }

  // A retried command returns its first receipt and changes nothing, however
  // many other operations came between.
  lemma RetrySame<S(!new), J>(world: World<S, J>, ops: seq<Op<S, J>>, i: nat, j: nat)
    requires FaithfulWorld(world) && i < j < |ops| && ops[i].OpExecute? && ops[j].OpExecute?
             && ops[i].gameId == ops[j].gameId
    requires CommandKey(ops[i].request) == CommandKey(ops[j].request)
             && FingerprintOf(ops[i].request) == FingerprintOf(ops[j].request)
    requires AnswerAt(world, ops, i).Replied? && AnswerAt(world, ops, i).reply.Executed?
    requires AnswerAt(world, ops, j).Replied? && AnswerAt(world, ops, j).reply.Executed?
    ensures AnswerAt(world, ops, j).reply.receipt == AnswerAt(world, ops, i).reply.receipt
    ensures AnswerAt(world, ops, j).reply.duplicate && AnswerAt(world, ops, j).reply.entries == []
    ensures Reached(world, ops[..j + 1]).games == Reached(world, ops[..j]).games
  {
    hide FaithfulWorld, Step;
    assert ops[..i + 1][..i] == ops[..i] && ops[..j + 1][..j] == ops[..j] && ops[..j][..i + 1] == ops[..i + 1];
    RunGrows(world, ops[..j], i + 1);
    hide Reached;
    ExecutedIsStored(world, Reached(world, ops[..i]), ops[i]);
    assert Grows(Reached(world, ops[..i + 1]).games[ops[i].gameId], Reached(world, ops[..j]).games[ops[i].gameId]);
    StoredIsReturned(world, Reached(world, ops[..j]), ops[j]);
  }

  lemma ExecutedIsStored<S, J>(world: World<S, J>, st: Store<J>, op: Op<S, J>)
    requires op.OpExecute? && Step(world, st, op).1.Replied? && Step(world, st, op).1.reply.Executed?
    ensures var (t, answer) := Step(world, st, op);
            op.gameId in t.games && CommandKey(op.request) in t.games[op.gameId].commands
            && t.games[op.gameId].commands[CommandKey(op.request)]
               == Stored(FingerprintOf(op.request), answer.reply.receipt)
  {
    hide Decide, Load;
  }

  lemma StoredIsReturned<S, J>(world: World<S, J>, st: Store<J>, op: Op<S, J>)
    requires op.OpExecute? && op.gameId in st.games && CommandKey(op.request) in st.games[op.gameId].commands
    requires Step(world, st, op).1.Replied? && Step(world, st, op).1.reply.Executed?
    ensures var (t, answer) := Step(world, st, op); var stored := st.games[op.gameId].commands[CommandKey(op.request)];
            && t.games == st.games && answer.reply.receipt == stored.receipt
               && stored.fingerprint == FingerprintOf(op.request)
            && answer.reply.duplicate && answer.reply.entries == []
  {
    hide Decide, Load;
  }

  function StartWith<S, J(==)>(world: World<S, J>, st: Store<J>, op: Op<S, J>): (Store<J>, Answer<S, J>)
    requires op.OpStart?
  {
    Start(world, op.key, st, op.gameId, op.room, op.rules, op.initial, op.command, op.owner, op.roster,
        op.lease, op.now, op.token)
  }

  predicate SameStart<S(!new), J>(a: Op<S, J>, b: Op<S, J>) {
    && a.OpStart? && b.OpStart? && a.key == b.key && a.gameId == b.gameId && a.room == b.room && a.command == b.command
    && a.roster == b.roster && b.lease > 0
  }

  // A start that is repeated with the same command and roster opens the same
  // game, grants no second lease and changes nothing.
  lemma StartRetried<S(!new), J>(world: World<S, J>, st: Store<J>, op: Op<S, J>, later: Store<J>, again: Op<S, J>)
    requires SameStart(op, again) && again.rules == op.rules
    requires Prepare(world(op.key), op.rules, op.roster, again.initial)
             == Prepare(world(op.key), op.rules, op.roster, op.initial)
    requires op.gameId !in st.games && StartWith(world, st, op).0 != st
    requires StoreGrows(StartWith(world, st, op).0, later) && Reservations(later.players, op.gameId) == Elems(op.roster)
    ensures op.gameId in later.games
    ensures StartWith(world, later, again) == (later,
            Opening(world(op.key), op.key, later.games[op.gameId], None, false))
  {
    hide Opening, Seated, PlayersOk, Reservations, Prepare, StoreGrows;
    var t := StartWith(world, st, op).0;
    GrownGame(t, later, op.gameId);
    hide Elems;
  }

  lemma GrownGame<J>(t: Store<J>, later: Store<J>, id: nat)
    requires StoreGrows(t, later) && id in t.games
    ensures id in later.games && Grows(t.games[id], later.games[id])
  {
  }

  // A created game reserves exactly its roster and disturbs no other reservation.
  lemma StartReserves<S(!new), J>(world: World<S, J>, st: Store<J>, op: Op<S, J>)
    requires op.OpStart? && op.gameId !in st.games && StartWith(world, st, op).0 != st
    ensures var t := StartWith(world, st, op).0;
            && (forall u :: u in st.players ==> u !in Users(op.roster) && u in t.players && t.players[u] == st.players[u])
            && (forall u :: u in t.players ==> u in st.players || u in Users(op.roster))
            && forall i :: 0 <= i < |op.roster| ==>
                 op.roster[i].0 in t.players && t.players[op.roster[i].0] == Seat(op.gameId, op.room, op.roster[i].1)
  {
    hide Opening, Seated, Prepare, StartWith, NoDup;
    StartSeats(world, st, op);
    RosterSeated(st.players, op.gameId, op.room, op.roster);
  }

  // The reservations a start that created its game leaves behind.
  lemma StartSeats<S(!new), J>(world: World<S, J>, st: Store<J>, op: Op<S, J>)
    requires op.OpStart? && op.gameId !in st.games && StartWith(world, st, op).0 != st
    ensures StartWith(world, st, op).0.players == Seated(st.players, op.gameId, op.room, op.roster)
    ensures NoDup(Users(op.roster)) && forall i :: 0 <= i < |op.roster| ==> op.roster[i].0 !in st.players
  {
    hide Opening, Seated, Prepare, NoDup;
  }

  lemma RosterSeated(players: map<string, Seat>, gameId: nat, room: string, roster: seq<(string, int)>)
    requires NoDup(Users(roster)) && forall i :: 0 <= i < |roster| ==> roster[i].0 !in players
    ensures var t := Seated(players, gameId, room, roster);
            && (forall u :: u in players ==> u !in Users(roster) && u in t && t[u] == players[u])
            && (forall u :: u in t ==> u in players || u in Users(roster))
            && forall i :: 0 <= i < |roster| ==> roster[i].0 in t && t[roster[i].0] == Seat(gameId, room, roster[i].1)
  {
    hide Seated;
    var t, users := Seated(players, gameId, room, roster), Users(roster);
    forall u | u in players ensures u !in users {
      forall k | 0 <= k < |users| ensures users[k] != u { assert roster[k].0 !in players; }
    }
    forall i | 0 <= i < |roster| ensures roster[i].0 in t && t[roster[i].0] == Seat(gameId, room, roster[i].1) {
      var u := roster[i].0;
      assert users[i] == u && u in Elems(users);
      var j :| 0 <= j < |roster| && roster[j].0 == u && t[u] == Seat(gameId, room, roster[j].1);
      assert users[j] == users[i];
    }
  }
}

// What the durable store commits, refuses and grants, field by field.
module DurableEffects {
  import opened Prelude
  import opened DurableModels
  import opened DurableGame
  import opened DurableStore

  // ---- executing a command

  // A request is known by its actor and command id, and is the same request again
  // only with the same expected revision, command and payload.
  lemma RequestMeans<J>(a: Request<J>, b: Request<J>)
    ensures CommandKey(a) == CommandKey(b) <==> a.actor == b.actor && a.commandId == b.commandId
    ensures FingerprintOf(a) == FingerprintOf(b) <==>
            a.expectedRevision == b.expectedRevision && a.command == b.command && a.payload == b.payload
  {
  }

  // The caller may execute a new command on this record.
  ghost predicate Admitted<S, J>(d: Definition<S, J>, g: Record<J>, request: Request<J>, o: Ownership, now: int) {
    && Load(d, g.key, g).Loaded? && g.active && ValidOwner(g, o, now)
    && (request.actor, request.commandId) !in g.commands
  }

  // The record with one more stored command and nothing else changed.
  ghost predicate OnlyStored<J>(g: Record<J>, t: Record<J>, request: Request<J>, receipt: Receipt) {
    && t == g.(commands := t.commands)
    && t.commands.Keys == g.commands.Keys + {(request.actor, request.commandId)}
    && (forall k :: k in g.commands && k != (request.actor, request.commandId) ==> t.commands[k] == g.commands[k])
    && t.commands[(request.actor, request.commandId)].receipt == receipt
  }

  // A command that does not know the current revision is rejected as stale: the
  // rejection is stored, no event is written and the revision stays.
  lemma StaleRejected<S(!new), J>(d: Definition<S, J>, g: Record<J>, request: Request<J>, o: Ownership, now: int,
    mint: nat -> nat)
    requires RecordOk(d, g) && Admitted(d, g, request, o, now) && request.expectedRevision != g.currentRevision
    ensures var (t, reply) := Execute(d, g.key, g, request, o, now, mint);
            && reply.Executed? && !reply.duplicate && reply.entries == []
            && reply.receipt == Receipt(request.commandId, false, g.currentRevision, None, None, Some("STALE_REVISION"))
            && t.events == g.events && t.currentRevision == g.currentRevision
            && OnlyStored(g, t, request, reply.receipt)
  {
    hide Load, ValidOwner, ReceiptsOk, Replayed;
  }

  // The facts were written behind the old journal as entries numbered on from it.
  ghost predicate Appended<J>(events: seq<Entry<J>>, later: seq<Entry<J>>, facts: seq<Fact<J>>, request: Request<J>) {
    var n := |events|;
    && |later| == n + |facts| && later[..n] == events
    && forall i :: 0 <= i < |facts| ==>
         && later[n + i].sequence == n + i + 1 && later[n + i].event.fact == facts[i]
         && later[n + i].actor == request.actor && later[n + i].commandId == request.commandId
  }

  function Acceptance(commandId: string, revision: int, written: nat, facts: nat): Receipt {
    Receipt(commandId, true, revision, if facts == 0 then None else Some(written + 1),
            if facts == 0 then None else Some(written + facts), None)
  }

  // What an accepted command leaves.
  ghost predicate Accepts<S, J>(d: Definition<S, J>, g: Record<J>, t: Record<J>, reply: Reply<S, J>,
    request: Request<J>, facts: seq<Fact<J>>, after: S)
  {
    && reply.Executed? && !reply.duplicate && reply.state == after
    && reply.receipt == Acceptance(request.commandId, d.revision(after), |g.events|, |facts|)
    && Appended(g.events, t.events, facts, request) && reply.entries == t.events[|g.events|..]
    && t == g.(commands := t.commands, events := t.events, currentSequence := |t.events|,
              currentRevision := d.revision(after))
    && OnlyStored(g, g.(commands := t.commands), request, reply.receipt)
  }

  ghost predicate Rejects<S, J>(g: Record<J>, t: Record<J>, reply: Reply<S, J>, request: Request<J>, code: string) {
    && reply.Executed? && !reply.duplicate && reply.entries == []
    && reply.receipt == Receipt(request.commandId, false, g.currentRevision, None, None, Some(code))
    && OnlyStored(g, t, request, reply.receipt)
  }

  // A command on the current revision is what the game's rules make of it: rejected
  // with their code when they refuse it or one of its events, and committed when
  // they accept it. A rule set that raises, changes the state while deciding, or
  // does not move the revision with its events commits nothing.
  lemma RulesDecide<S(!new), J>(d: Definition<S, J>, g: Record<J>, request: Request<J>, o: Ownership, now: int,
    mint: nat -> nat)
    requires Faithful(d) && RecordOk(d, g) && Admitted(d, g, request, o, now)
    requires request.expectedRevision == g.currentRevision
    ensures var (t, reply) := Execute(d, g.key, g, request, o, now, mint);
            var state := Load(d, g.key, g).state;
            var (working, decision) := d.decide(state, request.actor, request.command, request.payload);
            if decision.Raises? then t == g && reply == Failed(Exception)
            else if working != state then t == g && reply == Failed(Incompatible)
            else if decision.Refuses? then Rejects(g, t, reply, request, decision.code)
            else
              match Applied(d, state, Committed(decision.facts, |g.events| + 1, request, mint)) {
                case Broken => t == g && reply == Failed(Exception)
                case Refused(code) => Rejects(g, t, reply, request, code)
                case Fine(after) =>
                  if (if decision.facts == [] then d.revision(after) == g.currentRevision
                      else d.revision(after) > g.currentRevision)
                  then Accepts(d, g, t, reply, request, decision.facts, after)
                  else t == g && reply == Failed(Incompatible)
              }
  {
    hide Load, ValidOwner, ReceiptsOk, Replayed, Applied, RecordOk, Committed, WithReceipt, Accepts, Rejects;
    var state := Load(d, g.key, g).state;
    SoundCount(d, g);
    DecodedFirst(d, state);
    var (working, decision) := d.decide(state, request.actor, request.command, request.payload);
    DecodedFirst(d, working);
    hide Faithful;
    var (t, reply) := Execute(d, g.key, g, request, o, now, mint);
    if decision.Refuses? {
      RejectedIs(g, request, decision.code, reply);
    } else if decision.Proposes? {
      match Applied(d, state, Committed(decision.facts, |g.events| + 1, request, mint))
      case Refused(code) => RejectedIs(g, request, code, reply);
      case Fine(after) => AcceptedIs(d, g, reply, request, decision.facts, after, mint);
      case Broken =>
    }
  }

  lemma RejectedIs<S, J>(g: Record<J>, request: Request<J>, code: string, reply: Reply<S, J>)
    requires (request.actor, request.commandId) !in g.commands
    ensures var receipt := Rejection(request.commandId, g.currentRevision, code);
            reply.Executed? && !reply.duplicate && reply.entries == [] && reply.receipt == receipt ==>
              Rejects(g, WithReceipt(g, request, receipt, []), reply, request, code)
  {
    assert g.events + [] == g.events;
  }

  lemma AcceptedIs<S, J>(d: Definition<S, J>, g: Record<J>, reply: Reply<S, J>, request: Request<J>,
    facts: seq<Fact<J>>, after: S, mint: nat -> nat)
    requires (request.actor, request.commandId) !in g.commands && g.currentSequence == |g.events|
    ensures var entries := Committed(facts, |g.events| + 1, request, mint);
            var receipt := Acceptance(request.commandId, d.revision(after), |g.events|, |facts|);
            reply.Executed? && !reply.duplicate && reply.state == after && reply.entries == entries
              && reply.receipt == receipt ==>
                Accepts(d, g, WithReceipt(g, request, receipt, entries), reply, request, facts, after)
  {
    hide WithReceipt, OnlyStored, Appended, Committed;
    var entries := Committed(facts, |g.events| + 1, request, mint);
    var receipt := Acceptance(request.commandId, d.revision(after), |g.events|, |facts|);
    StoredIs(g, request, receipt, entries);
    AppendedIs(g.events, facts, request, mint);
  }

  lemma AppendedIs<J>(events: seq<Entry<J>>, facts: seq<Fact<J>>, request: Request<J>, mint: nat -> nat)
    ensures var entries := Committed(facts, |events| + 1, request, mint);
            && Appended(events, events + entries, facts, request) && (events + entries)[|events|..] == entries
            && |entries| == |facts| && (entries != [] ==> entries[|entries| - 1].sequence == |events| + |entries|)
  {
    var entries := Committed(facts, |events| + 1, request, mint);
    assert forall i :: 0 <= i < |facts| ==> (events + entries)[|events| + i] == entries[i];
  }

  lemma StoredIs<J>(g: Record<J>, request: Request<J>, receipt: Receipt, entries: seq<Entry<J>>)
    requires (request.actor, request.commandId) !in g.commands
    ensures var t := WithReceipt(g, request, receipt, entries);
            && OnlyStored(g, g.(commands := t.commands), request, receipt)
            && t == g.(commands := t.commands, events := g.events + entries, currentRevision := receipt.revision,
                       currentSequence := if entries == [] then g.currentSequence
                                          else entries[|entries| - 1].sequence)
  {
  }

  lemma SoundCount<S, J>(d: Definition<S, J>, g: Record<J>)
    requires RecordOk(d, g)
    ensures g.currentSequence == |g.events|
  {
  }

  // Who is turned away, and why.
  lemma ExecuteRefused<S, J>(d: Definition<S, J>, key: Key, g: Record<J>, request: Request<J>, o: Ownership, now: int,
    mint: nat -> nat)
    requires RecordOk(d, g) && !(key == g.key && Admitted(d, g, request, o, now))
    ensures var (t, reply) := Execute(d, key, g, request, o, now, mint);
            && t == g
            && if key != g.key || g.rulesSchemaVersion != d.rulesSchemaVersion || d.normalizeRules(g.rules) != g.rules
               then reply == Failed(Incompatible)
               else if !g.active then reply == Failed(Conflict)
               else if !ValidOwner(g, o, now) then reply == Failed(StaleOwner)
               else
                 && (request.actor, request.commandId) in g.commands
                 && (reply.Executed? || reply == Failed(Conflict))
  {
    hide Replayed, ValidOwner, ReceiptsOk, LeaseOk, Decide;
    LoadSucceeds(d, g);
  }

  // A stored game is opened exactly by its own rules and version, and only while its
  // journal, its count of entries and its revision agree.
  lemma LoadMeans<S, J>(d: Definition<S, J>, key: Key, g: Record<J>)
    ensures Load(d, key, g).Loaded? <==>
            && key.gameType == g.key.gameType && key.engineVersion == g.key.engineVersion
            && key.eventSchemaVersion == g.key.eventSchemaVersion
            && d.rulesSchemaVersion == g.rulesSchemaVersion && d.normalizeRules(g.rules) == g.rules
            && exists state ::
                 && Replayed(d, d.decode(g.initialState), g.events) == Fine(state)
                 && g.currentSequence == |g.events| && g.currentRevision == d.revision(state)
  {
    hide Replayed;
  }

  // ---- leases

  // Who owns the game: the holder of the last lease granted on it, until it ends.
  lemma OwnerMeans<J>(g: Record<J>, o: Ownership, now: int)
    ensures ValidOwner(g, o, now) <==>
            && o.gameId == g.gameId && g.owner == Some(o.owner) && o.epoch == g.epoch
            && g.tokenHash == Some(TokenHash(o.token)) && g.expires.Some? && now < g.expires.value
  {
  }

  // The ownership holds up to, and not at, the end of the lease.
  ghost predicate LeasedUntil<J>(t: Record<J>, o: Ownership, end: int) {
    o.expires == end && forall later: int :: ValidOwner(t, o, later) <==> later < end
  }

  lemma LeaseLength<S, J>(g: Record<J>, owner: string, lease: int, now: int, token: nat, o: Ownership, checked: int,
    stamped: int)
    ensures var (t, r) := Acquire<S, J>(g, owner, lease, now, token);
            r.Granted? ==> r.ownership.owner == owner && LeasedUntil(t, r.ownership, now + lease)
    ensures var (t, r) := Renew<S, J>(g, o, lease, checked, stamped);
            r.Granted? ==> LeasedUntil(t, r.ownership, stamped + lease) && r.ownership == o.(expires := stamped + lease)
    ensures lease <= 0 ==>
              Acquire<S, J>(g, owner, lease, now, token) == (g, Failed(BadArgument))
              && Renew<S, J>(g, o, lease, checked, stamped) == (g, Failed(BadArgument))
  {
  }

  // ---- creating, starting, releasing

  // A game just made: no events, no commands, the revision of its initial state.
  ghost predicate Fresh<S, J>(d: Definition<S, J>, g: Record<J>, key: Key, gameId: nat, room: string, rules: J,
    state: S)
  {
    && g.gameId == gameId && g.roomId == room && g.key == key && g.active
    && g.events == [] && g.commands == map[] && g.currentSequence == 0
    && g.initialState == d.encode(state) && g.currentRevision == d.revision(state)
    && g.rulesSchemaVersion == d.rulesSchemaVersion && g.rules == d.normalizeRules(rules)
  }

  // The state a game starts from: the one supplied, or the rules' own.
  function FirstState<S, J>(d: Definition<S, J>, rules: J, roster: seq<(string, int)>, initial: Option<S>): S {
    match initial
    case Some(state) => state
    case None => d.initialState(d.normalizeRules(rules), roster)
  }

  // Nobody is seated twice or in two games, every seat and user is real.
  ghost predicate MayStart(players: map<string, Seat>, roster: seq<(string, int)>) {
    && roster != []
    && (forall i, j :: 0 <= i < j < |roster| ==> roster[i].0 != roster[j].0 && roster[i].1 != roster[j].1)
    && forall i :: 0 <= i < |roster| ==> roster[i].0 != "" && roster[i].1 >= 1 && roster[i].0 !in players
  }

  // A new game is started exactly when its roster may, by its first owner.
  lemma StartMeans<S(!new), J>(world: World<S, J>, st: Store<J>, op: Op<S, J>)
    requires FaithfulWorld(world) && op.OpStart? && op.gameId !in st.games
    ensures var (t, answer) := StartWith(world, st, op);
            var d := world(op.key);
            && (op.lease > 0 && MayStart(st.players, op.roster) <==> op.gameId in t.games)
            && (op.gameId !in t.games ==>
                  t == st && answer == Replied(Failed(if op.lease <= 0 then BadArgument else Conflict)))
            && (op.gameId in t.games ==>
                  var g := t.games[op.gameId];
                  && t.games == st.games[op.gameId := g]
                  && Fresh(d, g, op.key, op.gameId, op.room, op.rules, FirstState(d, op.rules, op.roster, op.initial))
                  && g.startCommand == Some(op.command) && g.epoch == 1
                  && LeasedUntil(g, Ownership(op.gameId, op.owner, 1, op.token, op.now + op.lease), op.now + op.lease)
                  && (answer.Opened? ==>
                        && answer.ownership == Some(Ownership(op.gameId, op.owner, 1, op.token, op.now + op.lease))
                        && answer.created && answer.sequence == 0 && answer.revision == g.currentRevision))
  {
    hide Seated, Load, Faithful;
    RosterMeans(st.players, op.roster);
    hide PlayersOk, MayStart;
    assert Faithful(world(op.key));
    DecodedFirst(world(op.key), FirstState(world(op.key), op.rules, op.roster, op.initial));
  }

  lemma DecodedFirst<S(!new), J>(d: Definition<S, J>, state: S)
    requires Faithful(d)
    ensures d.decode(d.encode(state)) == state
  {
  }

  lemma RosterMeans(players: map<string, Seat>, roster: seq<(string, int)>)
    ensures MayStart(players, roster) <==>
            PlayersOk(roster) && !(exists i :: 0 <= i < |roster| && roster[i].0 in players)
  {
    var users, seats := Users(roster), Seats(roster);
    assert forall i :: 0 <= i < |roster| ==> users[i] == roster[i].0 && seats[i] == roster[i].1;
    if MayStart(players, roster) {
      forall i, j | 0 <= i < j < |roster| ensures users[i] != users[j] && seats[i] != seats[j] {
        assert roster[i].0 != roster[j].0;
      }
    }
    if NoDup(users) && NoDup(seats) {
      forall i, j | 0 <= i < j < |roster| ensures roster[i].0 != roster[j].0 && roster[i].1 != roster[j].1 {
        assert users[i] != users[j] && seats[i] != seats[j];
      }
    }
  }

  // The stored game was made from the same room, rules and first state.
  ghost predicate SameGame<S, J>(d: Definition<S, J>, g: Record<J>, room: string, rules: J, state: S) {
    && g.roomId == room && g.initialState == d.encode(state)
    && g.rulesSchemaVersion == d.rulesSchemaVersion && g.rules == d.normalizeRules(rules)
  }

  // Starting a game that exists changes nothing, and opens it only for the same
  // start: same rules and room, same first state, same command, same players.
  lemma RestartMeans<S(!new), J>(world: World<S, J>, st: Store<J>, op: Op<S, J>)
    requires StoreOk(world, st) && op.OpStart? && op.gameId in st.games
    ensures var (t, answer) := StartWith(world, st, op);
            var d := world(op.key);
            var g := st.games[op.gameId];
            && t == st
            && (answer.Opened? ==> answer.ownership.None? && !answer.created)
            && (answer.Opened? <==>
                  && op.lease > 0 && PlayersOk(op.roster) && g.key == op.key
                  && SameGame(d, g, op.room, op.rules, FirstState(d, op.rules, op.roster, op.initial))
                  && g.startCommand == Some(op.command) && Load(d, op.key, g).Loaded?
                  && forall user, seat :: (user, seat) in op.roster <==>
                       user in st.players && st.players[user].gameId == op.gameId && st.players[user].seat == seat)
  {
    hide Load, PlayersOk, StoreOk;
    var d := world(op.key);
    var held := Reservations(st.players, op.gameId);
    assert held == Elems(op.roster) <==>
           forall user, seat :: (user, seat) in op.roster <==>
             user in st.players && st.players[user].gameId == op.gameId && st.players[user].seat == seat by {
      ReservedExactly(st.players, op.gameId, op.roster);
    }
    hide Reservations;
  }

  lemma ReservedExactly(players: map<string, Seat>, gameId: nat, roster: seq<(string, int)>)
    ensures Reservations(players, gameId) == Elems(roster) <==>
            forall user, seat :: (user, seat) in roster <==>
              user in players && players[user].gameId == gameId && players[user].seat == seat
  {
    var held := Reservations(players, gameId);
    forall user, seat
      ensures (user, seat) in held <==> user in players && players[user].gameId == gameId && players[user].seat == seat
    {
    }
    assert forall p :: p in held <==> (p.0, p.1) in held;
    if forall user, seat :: (user, seat) in roster <==>
         user in players && players[user].gameId == gameId && players[user].seat == seat {
      forall p ensures p in held <==> p in Elems(roster) { assert p == (p.0, p.1); }
    }
  }

  // Creating a game seats nobody and grants nothing; creating it again is refused
  // unless it is the same game.
  lemma CreateMeans<S(!new), J>(world: World<S, J>, key: Key, st: Store<J>, gameId: nat, room: string, rules: J,
    initial: Option<S>)
    requires FaithfulWorld(world)
    ensures var (t, answer) := Create(world, key, st, gameId, room, rules, initial);
            var d := world(key);
            && t.players == st.players
            && (answer.Opened? ==> answer.ownership.None? && answer.created == (gameId !in st.games))
            && if gameId in st.games then
                 var g := st.games[gameId];
                 && t == st
                 && (answer.Opened? <==> g.key == key && SameGame(d, g, room, rules, FirstState(d, rules, [], initial))
                                         && Load(d, key, g).Loaded?)
               else
                 && gameId in t.games && t.games == st.games[gameId := t.games[gameId]]
                 && Fresh(d, t.games[gameId], key, gameId, room, rules, FirstState(d, rules, [], initial))
                 && t.games[gameId].epoch == 0 && t.games[gameId].owner.None?
  {
    hide Load, Faithful;
    assert Faithful(world(key));
    DecodedFirst(world(key), FirstState(world(key), rules, [], initial));
  }

  // Releasing a game frees its players and nobody else.
  lemma ReleaseMeans<J>(st: Store<J>, gameId: nat)
    ensures var t := Release(st, gameId);
            && t.games == st.games
            && forall u :: u in t.players <==> u in st.players && st.players[u].gameId != gameId
    ensures forall u :: u in Release(st, gameId).players ==> Release(st, gameId).players[u] == st.players[u]
  {
  }

  // ---- over whole runs

  // An accepted command that wrote events.
  predicate Writes<S, J>(answer: Answer<S, J>) {
    Commits(answer) && answer.reply.receipt.accepted && answer.reply.entries != []
  }

  // It expected the revision it found, and left a higher one.
  lemma WriteAdvances<S, J>(d: Definition<S, J>, key: Key, g: Record<J>, request: Request<J>, o: Ownership, now: int,
    mint: nat -> nat)
    ensures var (t, reply) := Execute(d, key, g, request, o, now, mint);
            Writes(Replied(reply)) ==>
              request.expectedRevision == g.currentRevision && t.currentRevision > g.currentRevision
  {
    hide Load, ValidOwner, Applied, Committed;
  }

  lemma WriteStep<S, J>(world: World<S, J>, st: Store<J>, op: Op<S, J>)
    requires op.OpExecute? && Writes(Step(world, st, op).1)
    ensures op.gameId in st.games && op.gameId in Step(world, st, op).0.games
    ensures op.request.expectedRevision == st.games[op.gameId].currentRevision
    ensures st.games[op.gameId].currentRevision < Step(world, st, op).0.games[op.gameId].currentRevision
  {
    hide Execute;
    if op.gameId in st.games {
      WriteAdvances(world(op.key), op.key, st.games[op.gameId], op.request, op.ownership, op.now, op.mint);
    }
  }

  // No revision of a game is built upon twice, whichever servers execute: of two
  // commands that wrote events the later one expected a later revision.
  lemma RevisionUsedOnce<S(!new), J>(world: World<S, J>, ops: seq<Op<S, J>>, i: nat, j: nat)
    requires FaithfulWorld(world) && i < j < |ops| && ops[i].OpExecute? && ops[j].OpExecute?
             && ops[i].gameId == ops[j].gameId
    requires Writes(AnswerAt(world, ops, i)) && Writes(AnswerAt(world, ops, j))
    ensures ops[i].request.expectedRevision < ops[j].request.expectedRevision
  {
    hide FaithfulWorld, Step;
    assert ops[..i + 1][..i] == ops[..i] && ops[..j][..i + 1] == ops[..i + 1];
    RunGrows(world, ops[..j], i + 1);
    hide Reached;
    WriteStep(world, Reached(world, ops[..i]), ops[i]);
    WriteStep(world, Reached(world, ops[..j]), ops[j]);
    ReachedNext(world, ops, i);
    assert Grows(Reached(world, ops[..i + 1]).games[ops[i].gameId], Reached(world, ops[..j]).games[ops[i].gameId]);
  }

  lemma ReachedNext<S, J>(world: World<S, J>, ops: seq<Op<S, J>>, i: nat)
    requires i < |ops|
    ensures Reached(world, ops[..i + 1]) == Step(world, Reached(world, ops[..i]), ops[i]).0
  {
    hide Step;
    assert ops[..i + 1][..i] == ops[..i];
  }
}

// One game's record: loading, deciding, committing, and the lease that fences
// stale owners off.
module DurableGame {
  import opened Prelude
  import opened DurableModels

  // ---- loading

  datatype Loading<+S> = Loaded(state: S) | LoadFailed(error: Error)

  // _load_locked
  function Load<S, J(==)>(d: Definition<S, J>, key: Key, g: Record<J>): Loading<S> {
    if key != g.key then LoadFailed(Incompatible)
    else if g.rulesSchemaVersion != d.rulesSchemaVersion || d.normalizeRules(g.rules) != g.rules then
        LoadFailed(Incompatible)
    else
      match Replayed(d, d.decode(g.initialState), g.events)
      case Fine(state) =>
        if |g.events| != g.currentSequence || d.revision(state) != g.currentRevision then LoadFailed(Incompatible)
        else Loaded(state)
      case _ => LoadFailed(Exception)
  }

  // ---- deciding

  datatype Verdict<+S, +J> = Settled(receipt: Receipt, entries: seq<Entry<J>>, state: S) | Undecided(error: Error)

  function Rejection(request: string, revision: int, code: string): Receipt {
    Receipt(request, false, revision, None, None, Some(code))
  }

  // _decide on a loaded state.
  function Decide<S, J(==)>(d: Definition<S, J>, g: Record<J>, state: S, request: Request<J>,
    mint: nat -> nat): Verdict<S, J> {
    if request.expectedRevision != g.currentRevision then
      Settled(Rejection(request.commandId, g.currentRevision, "STALE_REVISION"), [], state)
    else
      var baseline := d.encode(state);
      var (working, decision) := d.decide(d.decode(baseline), request.actor, request.command, request.payload);
      if decision.Raises? then Undecided(Exception)
      else if d.encode(working) != baseline then Undecided(Incompatible)
      else
        match decision
        case Refuses(code) => Settled(Rejection(request.commandId, g.currentRevision, code), [], state)
        case Proposes(facts) =>
          var entries := Committed(facts, g.currentSequence + 1, request, mint);
          match Applied(d, working, entries) {
            case Refused(code) => Settled(Rejection(request.commandId, g.currentRevision, code), [], state)
            case Broken => Undecided(Exception)
            case Fine(after) =>
              var revision := d.revision(after);
              if entries != [] && revision <= g.currentRevision then Undecided(Incompatible)
              else if entries == [] && revision != g.currentRevision then Undecided(Incompatible)
              else
                Settled(Receipt(request.commandId, true, revision,
                    if entries != [] then Some(g.currentSequence + 1) else None,
                                if entries != [] then Some(g.currentSequence + |entries|)
                                    else None, None), entries, after)
          }
  }

  // ---- the lease

  // _validate_owner
  predicate ValidOwner<J>(g: Record<J>, o: Ownership, now: int) {
    && o.gameId == g.gameId && Some(o.owner) == g.owner && o.epoch == g.epoch
    && g.tokenHash.Some? && TokenHash(o.token) == g.tokenHash.value
    && g.expires.Some? && g.expires.value > now
  }

  datatype Reply<+S, +J> =
    | Executed(state: S, sequence: nat, revision: int, epoch: nat, receipt: Receipt, entries: seq<Entry<J>>,
        duplicate: bool)
    | Granted(ownership: Ownership)
    | Failed(error: Error)

  function CommandKey<J>(request: Request<J>): (string, string) {
    (request.actor, request.commandId)
  }

  function FingerprintOf<J>(request: Request<J>): Fingerprint<J> {
    Fingerprint(request.expectedRevision, request.command, request.payload)
  }

  // The record after a settled command.
  function WithReceipt<J>(g: Record<J>, request: Request<J>, receipt: Receipt, entries: seq<Entry<J>>): Record<J> {
    g.(commands := g.commands[CommandKey(request) := Stored(FingerprintOf(request), receipt)],
       events := g.events + entries,
       currentSequence := if entries != [] then entries[|entries| - 1].sequence else g.currentSequence,
       currentRevision := receipt.revision)
  }

  // execute, once the game is found and locked.
  function Execute<S, J(==)>(d: Definition<S, J>, key: Key, g: Record<J>, request: Request<J>, o: Ownership,
    now: int, mint: nat -> nat)
    : (Record<J>, Reply<S, J>)
  {
    match Load(d, key, g)
    case LoadFailed(error) => (g, Failed(error))
    case Loaded(state) =>
      if !g.active then (g, Failed(Conflict))
      else if !ValidOwner(g, o, now) then (g, Failed(StaleOwner))
      else if CommandKey(request) in g.commands then
        var stored := g.commands[CommandKey(request)];
        if stored.fingerprint != FingerprintOf(request) then (g, Failed(Conflict))
        else (g, Executed(state, g.currentSequence, g.currentRevision, g.epoch, stored.receipt, [], true))
      else
        match Decide(d, g, state, request, mint)
        case Undecided(error) => (g, Failed(error))
        case Settled(receipt, entries, after) =>
          var next := WithReceipt(g, request, receipt, entries);
          (next, Executed(after, next.currentSequence, next.currentRevision, next.epoch, receipt, entries, false))
  }

  // acquire
  function Acquire<S, J>(g: Record<J>, owner: string, lease: int, now: int, token: nat): (Record<J>, Reply<S, J>) {
    if lease <= 0 then (g, Failed(BadArgument))
    else if g.expires.Some? && g.expires.value > now then (g, Failed(Conflict))
    else
      var next := g.(owner := Some(owner), epoch := g.epoch + 1, tokenHash := Some(TokenHash(token)),
          expires := Some(now + lease));
      (next, Granted(Ownership(g.gameId, owner, next.epoch, token, now + lease)))
  }

  // renew; the clock is read once for the check and once for the new expiry.
  function Renew<S, J>(g: Record<J>, o: Ownership, lease: int, checked: int, stamped: int): (Record<J>, Reply<S, J>) {
    if lease <= 0 then (g, Failed(BadArgument))
    else if !ValidOwner(g, o, checked) then (g, Failed(StaleOwner))
    else (g.(expires := Some(stamped + lease)), Granted(o.(expires := stamped + lease)))
  }

  // ---- what every reachable record satisfies

  // The entries of an accepted receipt.
  predicate InRange(r: Receipt, sequence: nat) {
    r.first.Some? && r.last.Some? && r.first.value <= sequence <= r.last.value
  }

  ghost predicate ReceiptsOk<J>(g: Record<J>) {
    && (forall k :: k in g.commands ==>
          var r := g.commands[k].receipt;
          && r.commandId == k.1 && (r.first.Some? <==> r.last.Some?) && (!r.accepted ==> r.first.None?)
          && (r.first.Some? ==> 1 <= r.first.value <= r.last.value <= |g.events|))
    && (forall k, i :: k in g.commands && 0 <= i < |g.events| && InRange(g.commands[k].receipt, i + 1) ==>
          g.events[i].actor == k.0 && g.events[i].commandId == k.1)
    && forall i :: 0 <= i < |g.events| ==>
         (g.events[i].actor, g.events[i].commandId) in g.commands
         && InRange(g.commands[(g.events[i].actor, g.events[i].commandId)].receipt, i + 1)
  }

  ghost predicate JournalOk<S, J>(d: Definition<S, J>, g: Record<J>) {
    && (forall i :: 0 <= i < |g.events| ==> g.events[i].sequence == i + 1)
    && g.currentSequence == |g.events|
    && var r := Replayed(d, d.decode(g.initialState), g.events);
       r.Fine? && d.revision(r.state) == g.currentRevision
  }

  ghost predicate LeaseOk<J>(g: Record<J>) {
    (g.owner.Some? <==> g.tokenHash.Some?) && (g.owner.Some? <==> g.expires.Some?) && (g.owner.Some? ==> g.epoch >= 1)
  }

  ghost predicate RecordOk<S, J>(d: Definition<S, J>, g: Record<J>) {
    JournalOk(d, g) && ReceiptsOk(g) && LeaseOk(g)
  }

  // ---- deciding extends the journal

  // What a settled verdict promises the journal.
  lemma SettledIs<S(!new), J>(d: Definition<S, J>, g: Record<J>, state: S, request: Request<J>, mint: nat -> nat)
    requires Faithful(d) && JournalOk(d, g) && Replayed(d, d.decode(g.initialState), g.events) == Fine(state)
    requires Decide(d, g, state, request, mint).Settled?
    ensures var v := Decide(d, g, state, request, mint); var n := |g.events|;
            && (forall i :: 0 <= i < |v.entries| ==>
                  v.entries[i].sequence == n + i + 1 && v.entries[i].actor == request.actor
                      && v.entries[i].commandId == request.commandId)
            && Replayed(d, d.decode(g.initialState), g.events + v.entries) == Fine(v.state)
               && d.revision(v.state) == v.receipt.revision
            && v.receipt.commandId == request.commandId
               && (!v.receipt.accepted ==> v.entries == [] && v.receipt.revision == g.currentRevision)
            && v.receipt.first == (if v.entries != [] then Some(n + 1) else None)
            && v.receipt.last == (if v.entries != [] then Some(n + |v.entries|) else None)
            && (v.entries != [] ==> v.receipt.revision > g.currentRevision)
            && (v.entries == [] ==> v.receipt.revision == g.currentRevision)
  {
    var v := Decide(d, g, state, request, mint);
    var n := |g.events|;
    assert g.events + [] == g.events;
    if v.receipt.accepted {
      var baseline := d.encode(state);
      var (working, decision) := d.decide(d.decode(baseline), request.actor, request.command, request.payload);
      assert working == state by {
        assert d.decode(d.encode(working)) == working && d.decode(d.encode(state)) == state;
      }
      ReplayAppends(d, d.decode(g.initialState), g.events, state, v.entries);
    }
  }

  lemma CommitKeeps<J>(g: Record<J>, request: Request<J>, receipt: Receipt, entries: seq<Entry<J>>)
    requires ReceiptsOk(g) && CommandKey(request) !in g.commands && receipt.commandId == request.commandId
    requires forall i :: 0 <= i < |entries| ==>
             entries[i].actor == request.actor && entries[i].commandId == request.commandId
    requires receipt.first == (if entries != [] then Some(|g.events| + 1) else None)
    requires receipt.last == (if entries != [] then Some(|g.events| + |entries|) else None)
    requires !receipt.accepted ==> entries == []
    ensures ReceiptsOk(WithReceipt(g, request, receipt, entries))
  {
    var t := WithReceipt(g, request, receipt, entries);
    var key := CommandKey(request);
    forall k, i | k in t.commands && 0 <= i < |t.events| && InRange(t.commands[k].receipt, i + 1)
      ensures t.events[i].actor == k.0 && t.events[i].commandId == k.1
    {
      if k == key {
        assert t.events[i] == entries[i - |g.events|];
      } else {
        assert t.commands[k] == g.commands[k];
        assert t.events[i] == g.events[i];
      }
    }
    forall i | 0 <= i < |t.events|
      ensures (t.events[i].actor, t.events[i].commandId) in t.commands
      ensures InRange(t.commands[(t.events[i].actor, t.events[i].commandId)].receipt, i + 1)
    {
      if i < |g.events| {
        assert t.events[i] == g.events[i];
        assert (g.events[i].actor, g.events[i].commandId) in g.commands;
      } else {
        assert t.events[i] == entries[i - |g.events|];
      }
    }
  }

  lemma LoadedIs<S, J>(d: Definition<S, J>, key: Key, g: Record<J>)
    requires Load(d, key, g).Loaded?
    ensures Replayed(d, d.decode(g.initialState), g.events) == Fine(Load(d, key, g).state)
  {
  }

  lemma CommittedKeeps<S(!new), J>(d: Definition<S, J>, g: Record<J>, state: S, request: Request<J>, mint: nat -> nat)
    requires Faithful(d) && RecordOk(d, g) && Replayed(d, d.decode(g.initialState), g.events) == Fine(state)
    requires CommandKey(request) !in g.commands && Decide(d, g, state, request, mint).Settled?
    ensures var v := Decide(d, g, state, request, mint); var t := WithReceipt(g, request, v.receipt, v.entries);
            RecordOk(d, t) && Grows(g, t)
  {
    hide Faithful, Decide, Replayed, ReceiptsOk, CommandKey;
    SettledIs(d, g, state, request, mint);
    var v := Decide(d, g, state, request, mint);
    CommitKeeps(g, request, v.receipt, v.entries);
    var t := WithReceipt(g, request, v.receipt, v.entries);
    hide WithReceipt;
    WrittenIs(g, request, v.receipt, v.entries);
    assert JournalOk(d, t);
  }

  lemma WrittenIs<J>(g: Record<J>, request: Request<J>, receipt: Receipt, entries: seq<Entry<J>>)
    requires CommandKey(request) !in g.commands && g.currentSequence == |g.events|
    requires forall i :: 0 <= i < |entries| ==> entries[i].sequence == |g.events| + i + 1
    requires entries != [] ==> receipt.revision > g.currentRevision
    requires entries == [] ==> receipt.revision == g.currentRevision
    ensures var t := WithReceipt(g, request, receipt, entries);
            && t == g.(commands := t.commands, events := g.events + entries,
               currentSequence := |g.events| + |entries|, currentRevision := receipt.revision)
            && Grows(g, t)
  {
  }

  // execute keeps the record sound, whoever calls it; it only appends, and never
  // touches a stored receipt.
  lemma ExecuteKeeps<S(!new), J>(d: Definition<S, J>, key: Key, g: Record<J>, request: Request<J>,
    o: Ownership, now: int, mint: nat -> nat)
    requires Faithful(d) && RecordOk(d, g)
    ensures RecordOk(d, Execute(d, key, g, request, o, now, mint).0)
    ensures Grows(g, Execute(d, key, g, request, o, now, mint).0)
  {
    hide Faithful, RecordOk, Decide, Load, ValidOwner, CommandKey, WithReceipt;
    GrowsSelf(g);
    hide Grows;
    var loading := Load(d, key, g);
    if loading.Loaded? && g.active && ValidOwner(g, o, now) && CommandKey(request) !in g.commands
       && Decide(d, g, loading.state, request, mint).Settled? {
      LoadedIs(d, key, g);
      CommittedKeeps(d, g, loading.state, request, mint);
    }
  }

  lemma GrowsSelf<J>(g: Record<J>)
    ensures Grows(g, g)
  {
  }

  // Nothing already written is lost or changed, and the epoch never goes back.
  ghost predicate Grows<J>(g: Record<J>, t: Record<J>) {
    && t.gameId == g.gameId && t.roomId == g.roomId && t.key == g.key && t.initialState == g.initialState
    && t.rulesSchemaVersion == g.rulesSchemaVersion && t.rules == g.rules && t.startCommand == g.startCommand
    && g.events <= t.events && g.epoch <= t.epoch
    && (g.events == t.events ==> t.currentRevision == g.currentRevision)
    && t.currentRevision >= g.currentRevision
    && forall k :: k in g.commands ==> k in t.commands && t.commands[k] == g.commands[k]
  }

  lemma GrowsThrough<J>(g: Record<J>, t: Record<J>, u: Record<J>)
    requires Grows(g, t) && Grows(t, u)
    ensures Grows(g, u)
  {
  }

  // ---- idempotence

  // A command executed again, by any owner valid then and however much later,
  // gives the receipt it gave first and changes nothing; reusing its id for
  // another request is refused.
  lemma RetryReturnsReceipt<S(!new), J>(d: Definition<S, J>, key: Key, g: Record<J>, request: Request<J>,
    o: Ownership, now: int,
                                        mint: nat -> nat, later: Record<J>, o': Ownership, now': int,
                                         mint': nat -> nat, again: Request<J>)
    requires Faithful(d) && RecordOk(d, g) && Execute(d, key, g, request, o, now, mint).1.Executed?
    requires RecordOk(d, later) && Grows(Execute(d, key, g, request, o, now, mint).0, later) && later.active
    requires CommandKey(again) == CommandKey(request) && ValidOwner(later, o', now')
    ensures var first := Execute(d, key, g, request, o, now, mint).1;
            var second := Execute(d, key, later, again, o', now', mint');
            && second.0 == later
            && if FingerprintOf(again) == FingerprintOf(request) then
                 second.1.Executed? && second.1.receipt == first.receipt && second.1.duplicate && second.1.entries == []
               else second.1 == Failed(Conflict)
  {
    hide Faithful, Decide, Replayed, ReceiptsOk;
  }

  // ---- the receipts partition the journal

  // Ranges of different commands do not meet, every entry lies in exactly one,
  // and it names that command.
  lemma ReceiptsPartition<J>(g: Record<J>)
    requires ReceiptsOk(g)
    ensures forall k, l, i: nat :: i < |g.events| && Covers(g, k, i) && Covers(g, l, i) ==> k == l
    ensures forall i: nat :: i < |g.events| ==>
              var k := (g.events[i].actor, g.events[i].commandId);
              Covers(g, k, i) && g.commands[k].receipt.accepted
  {
    forall k, l, i: nat | i < |g.events| && Covers(g, k, i) && Covers(g, l, i) ensures k == l {
      assert g.events[i].actor == k.0 == l.0 && g.events[i].commandId == k.1 == l.1;
    }
  }

  // The receipt of command k counts the entry at index i as its own.
  predicate Covers<J>(g: Record<J>, k: (string, string), i: nat) {
    k in g.commands && InRange(g.commands[k].receipt, i + 1)
  }

  // ---- loading never fails on a sound record

  lemma LoadSucceeds<S, J>(d: Definition<S, J>, g: Record<J>)
    requires JournalOk(d, g)
    ensures Load(d, g.key, g).Loaded? <==> g.rulesSchemaVersion == d.rulesSchemaVersion && d.normalizeRules(g.rules) == g.rules
    ensures Load(d, g.key, g).Loaded? ==> Fine(Load(d, g.key, g).state) == Replayed(d, d.decode(g.initialState), g.events)
  {
  }

  // ---- fencing

  // Two ownerships good at one instant are the same owner, epoch and token.
  lemma OwnersAgree<J>(g: Record<J>, a: Ownership, b: Ownership, now: int)
    requires ValidOwner(g, a, now) && ValidOwner(g, b, now)
    ensures a.owner == b.owner && a.epoch == b.epoch && a.token == b.token
  {
  }

  // A lease is granted exactly when nobody holds one, and then only to its taker.
  lemma AcquireWhenFree<S, J>(g: Record<J>, owner: string, lease: int, now: int, token: nat)
    requires LeaseOk(g)
    ensures var (t, r) := Acquire<S, J>(g, owner, lease, now, token);
            && (r.Granted? <==> lease > 0 && forall o: Ownership :: !ValidOwner(g, o, now))
            && LeaseOk(t) && Grows(g, t)
            && (r.Granted? ==> r.ownership.epoch == t.epoch == g.epoch + 1 && ValidOwner(t, r.ownership, now)
                               && forall o: Ownership, later: int :: ValidOwner(t, o, later) ==>
                                  o.epoch == r.ownership.epoch && o.token == token)
  {
    if g.expires.Some? && g.expires.value > now {
      assert ValidOwner(g, Ownership(g.gameId, g.owner.value, g.epoch, g.tokenHash.value.of, 0), now);
    }
  }

  // Renewing keeps the holder and never shortens the lease.
  lemma RenewKeeps<S, J>(g: Record<J>, o: Ownership, lease: int, checked: int, stamped: int)
    requires LeaseOk(g)
    ensures var (t, r) := Renew<S, J>(g, o, lease, checked, stamped);
            && LeaseOk(t) && Grows(g, t) && t.epoch == g.epoch
            && (r.Granted? <==> lease > 0 && ValidOwner(g, o, checked))
            && (r.Granted? ==>
                  ValidOwner(t, r.ownership, stamped) && r.ownership.epoch == o.epoch && r.ownership.token == o.token)
            && (!r.Granted? ==> t == g)
  {
  }

  // After a later epoch has been issued, an older ownership is refused for good.
  lemma OldOwnerFenced<S, J>(d: Definition<S, J>, key: Key, g: Record<J>, o: Ownership, request: Request<J>,
    now: int, stamped: int,
                             mint: nat -> nat, lease: int)
    requires o.epoch < g.epoch
    ensures var (t, r) := Execute(d, key, g, request, o, now, mint); t == g && r.Failed?
    ensures var (t, r) := Renew<S, J>(g, o, lease, now, stamped); t == g && r.Failed?
  {
    hide Decide, Load;
  }
}

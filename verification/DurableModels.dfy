// The durable journal: game definitions, records, receipts and ownerships.
// S is a game's state and J its JSON form; both are left abstract.
module DurableModels {
  import opened Prelude

  // What a stored game must be opened with.
  datatype Key = Key(gameType: string, engineVersion: int, eventSchemaVersion: int)

  datatype Fact<+J> = Fact(eventType: string, eventVersion: int, payload: J)
  datatype Event<+J> = Event(eventId: nat, fact: Fact<J>)
  datatype Entry<+J> = Entry(sequence: nat, event: Event<J>, actor: string, commandId: string)

  // Returned, GameCommandRejected, or any other exception.
  datatype Decision<+J> = Proposes(facts: seq<Fact<J>>) | Refuses(code: string) | Raises
  datatype Reduction<+S> = Fine(state: S) | Refused(code: string) | Broken

  // A game's pure hooks. decide also gives back the working state, which a
  // faulty definition may have changed.
  datatype Definition<!S, !J> = Definition(
    rulesSchemaVersion: int,
    normalizeRules: J -> J,
    initialState: (J, seq<(string, int)>) -> S,
    decide: (S, string, string, J) -> (S, Decision<J>),
    reduce: (S, Event<J>) -> Reduction<S>,
    revision: S -> int,
    encode: S -> J,
    decode: J -> S)

  // The one assumption about definitions: decoding undoes encoding.
  ghost predicate Faithful<S(!new), J>(d: Definition<S, J>) {
    forall s :: d.decode(d.encode(s)) == s
  }

  // SHA-256, taken to be injective.
  datatype Digest = Digest(of: nat)

  function TokenHash(token: nat): Digest {
    Digest(token)
  }

  datatype Fingerprint<+J> = Fingerprint(expectedRevision: int, command: string, payload: J)
  datatype Receipt = Receipt(commandId: string, accepted: bool, revision: int, first: Option<nat>,
      last: Option<nat>, code: Option<string>)
  datatype Stored<+J> = Stored(fingerprint: Fingerprint<J>, receipt: Receipt)

  datatype Record<J> = Record(
    gameId: nat, roomId: string, key: Key, initialState: J, currentSequence: nat, currentRevision: int,
    rulesSchemaVersion: int, rules: J, active: bool,
    epoch: nat, owner: Option<string>, tokenHash: Option<Digest>, expires: Option<int>, startCommand: Option<string>,
    events: seq<Entry<J>>, commands: map<(string, string), Stored<J>>)

  datatype Ownership = Ownership(gameId: nat, owner: string, epoch: nat, token: nat, expires: int)

  datatype Error = NotFound | Conflict | Incompatible | StaleOwner | BadArgument | Exception

  datatype Request<+J> = Request(actor: string, commandId: string, expectedRevision: int, command: string, payload: J)

  // ---- replay

  // The state after the entries, which must be numbered from one.
  function Replayed<S, J>(d: Definition<S, J>, start: S, entries: seq<Entry<J>>): Reduction<S> {
    if entries == [] then Fine(start)
    else
      var last := entries[|entries| - 1];
      match Replayed(d, start, entries[..|entries| - 1])
      case Fine(before) => if last.sequence != |entries| then Broken else d.reduce(before, last.event)
      case failure => failure
  }

  lemma {:induction false} ReplayStops<S, J>(d: Definition<S, J>, start: S, entries: seq<Entry<J>>, k: nat)
    requires k <= |entries| && !Replayed(d, start, entries[..k]).Fine?
    ensures Replayed(d, start, entries) == Replayed(d, start, entries[..k])
  {
    if k < |entries| {
      assert entries[..|entries| - 1][..k] == entries[..k];
      ReplayStops(d, start, entries[..|entries| - 1], k);
    } else {
      assert entries[..k] == entries;
    }
  }

  // replay: one pass, counting the expected sequence.
  method Replay<S, J>(d: Definition<S, J>, initial: J, entries: seq<Entry<J>>) returns (r: Reduction<S>)
    ensures r == Replayed(d, d.decode(initial), entries)
  {
    var state := d.decode(initial);
    var expected := 1;
    for i := 0 to |entries|
      invariant expected == i + 1
      invariant Replayed(d, d.decode(initial), entries[..i]) == Fine(state)
    {
      assert entries[..i + 1][..i] == entries[..i];
      if entries[i].sequence != expected {
        ReplayStops(d, d.decode(initial), entries, i + 1);
        return Broken;
      }
      r := d.reduce(state, entries[i].event);
      if !r.Fine? {
        ReplayStops(d, d.decode(initial), entries, i + 1);
        return;
      }
      state := r.state;
      expected := expected + 1;
    }
    assert entries[..|entries|] == entries;
    r := Fine(state);
  }

  // ---- applying new events

  // _apply: numbers play no part here.
  function Applied<S, J>(d: Definition<S, J>, start: S, entries: seq<Entry<J>>): Reduction<S> {
    if entries == [] then Fine(start)
    else
      match Applied(d, start, entries[..|entries| - 1])
      case Fine(before) => d.reduce(before, entries[|entries| - 1].event)
      case failure => failure
  }

  // _committed: consecutive numbers from first, identities from mint.
  function Committed<J>(facts: seq<Fact<J>>, first: nat, request: Request<J>, mint: nat -> nat): (r: seq<Entry<J>>)
    ensures |r| == |facts|
    ensures forall i :: 0 <= i < |r| ==> r[i] == Entry(first + i, Event(mint(i), facts[i]), request.actor,
            request.commandId)
  {
    seq(|facts|, i requires 0 <= i < |facts| => Entry(first + i, Event(mint(i), facts[i]), request.actor,
        request.commandId))
  }

  // Replaying old and new entries is applying the new ones to the replayed state.
  lemma {:induction false} ReplayAppends<S, J>(d: Definition<S, J>, start: S, before: seq<Entry<J>>, state: S,
    more: seq<Entry<J>>)
    requires Replayed(d, start, before) == Fine(state)
    requires forall i :: 0 <= i < |more| ==> more[i].sequence == |before| + i + 1
    ensures Replayed(d, start, before + more) == Applied(d, state, more)
  {
    var all := before + more;
    if more == [] {
      assert all == before;
    } else {
      var init := more[..|more| - 1];
      ReplayAppends(d, start, before, state, init);
      assert all[..|all| - 1] == before + init;
    }
  }
}

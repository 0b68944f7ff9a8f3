// The versioned replay record: a JSON tree out and back. Reading accepts
// exactly the trees that writing produces from records that restore.
module CallBreakReplay {
  import opened Prelude
  import opened Cards
  import opened CallBreakRules
  import opened CallBreakDeals
  import opened CallBreakMatch
  import opened CallBreakInvariant
  import opened CallBreakRuns

  // A parsed JSON document; any number that is not an integer is a Fraction.
  datatype Json =
    | Null
    | Bool(flag: bool)
    | Int(number: int)
    | Fraction(text: string)
    | Str(text: string)
    | Arr(items: seq<Json>)
    | Obj(fields: map<string, Json>)

  datatype Replay = Replay(config: Config, initialDealer: int, entries: seq<Entry>)

  // ---- card ids

  function RankLabel(rank: Rank): (r: string)
    ensures |r| == 1 || |r| == 2
  {
    if rank == 11 then "J" else if rank == 12 then "Q" else if rank == 13 then "K" else if rank == 14 then "A"
    else if rank == 10 then "10" else ["23456789"[rank - 2]]
  }

  function SuitLabel(suit: Suit): char {
    match suit
    case Clubs => 'C'
    case Diamonds => 'D'
    case Hearts => 'H'
    case Spades => 'S'
  }

  function CardText(card: Card): string {
    RankLabel(card.rank) + [SuitLabel(card.suit)]
  }

  function ParseRank(mark: string): Option<Rank> {
    if mark == "J" then Some(11) else if mark == "Q" then Some(12) else if mark == "K" then Some(13)
    else if mark == "A" then Some(14) else if mark == "10" then Some(10)
    else if |mark| == 1 && '2' <= mark[0] <= '9' then Some(2 + (mark[0] - '2') as int)
    else None
  }

  function ParseSuit(mark: char): Option<Suit> {
    if mark == 'C' then Some(Clubs) else if mark == 'D' then Some(Diamonds)
    else if mark == 'H' then Some(Hearts) else if mark == 'S' then Some(Spades) else None
  }

  // Card.parse
  function ParseCard(text: string): Option<Card> {
    if |text| != 2 && |text| != 3 then None
    else
      var suit, rank := ParseSuit(text[|text| - 1]), ParseRank(text[..|text| - 1]);
      if suit.Some? && rank.Some? then Some(Card(suit.value, rank.value)) else None
  }

  lemma RankLabels(rank: Rank, mark: string)
    ensures ParseRank(mark) == Some(rank) <==> mark == RankLabel(rank)
  {
    if ParseRank(mark) == Some(rank) && rank < 10 {
      assert mark == [mark[0]];
      assert "23456789"[rank - 2] == mark[0];
    }
    if mark == RankLabel(rank) && rank < 10 {
      assert mark[0] == "23456789"[rank - 2];
    }
  }

  // A card id parses to exactly the card it names.
  lemma ParseCardIs(text: string, card: Card)
    ensures ParseCard(text) == Some(card) <==> text == CardText(card)
  {
    hide RankLabel, ParseRank;
    var mark := RankLabel(card.rank);
    assert CardText(card)[..|mark|] == mark;
    if |text| == 2 || |text| == 3 {
      var front := text[..|text| - 1];
      RankLabels(card.rank, front);
      assert text == front + [text[|text| - 1]];
    }
  }

  // ---- decks

  function DeckRows(deck: seq<Card>): (r: seq<Json>)
    ensures |r| == |deck|
  {
    seq(|deck|, i requires 0 <= i < |deck| => Str(CardText(deck[i])))
  }

  function ParseDeck(items: seq<Json>): (r: Option<seq<Card>>)
    ensures r.Some? ==> |r.value| == |items|
  {
    if items == [] then Some([])
    else
      var init, last := ParseDeck(items[..|items| - 1]), items[|items| - 1];
      if init.Some? && last.Str? && ParseCard(last.text).Some? then
          Some(init.value + [ParseCard(last.text).value]) else None
  }

  lemma {:induction false} ParseDeckIs(items: seq<Json>, deck: seq<Card>)
    ensures ParseDeck(items) == Some(deck) <==> items == DeckRows(deck)
  {
    hide ParseCard, CardText;
    if items == [] {
      assert DeckRows(deck) == [] ==> deck == [];
    } else if deck != [] {
      var last := items[|items| - 1];
      ParseDeckIs(items[..|items| - 1], deck[..|deck| - 1]);
      if last.Str? { ParseCardIs(last.text, deck[|deck| - 1]); }
      assert items == items[..|items| - 1] + [last];
      assert deck == deck[..|deck| - 1] + [deck[|deck| - 1]];
      assert DeckRows(deck) == DeckRows(deck[..|deck| - 1]) + [Str(CardText(deck[|deck| - 1]))];
    }
  }

  // ---- rows

  function Row(actor: Json, name: string): Json {
    Obj(map["actor" := actor, "command" := Str(name)])
  }

  function RowWith(actor: Json, name: string, field: string, value: Json): Json {
    Obj(map["actor" := actor, "command" := Str(name), field := value])
  }

  function EncodeEntry(e: Entry): Json {
    match e
    case FromController(StartDeal(deck)) => RowWith(Null, "StartDeal", "deck", Arr(DeckRows(deck)))
    case FromController(Redeal(deck)) => RowWith(Null, "Redeal", "deck", Arr(DeckRows(deck)))
    case FromController(CompleteShuffle(deck)) => RowWith(Null, "CompleteShuffle", "deck", Arr(DeckRows(deck)))
    case FromController(PrepareDeal) => Row(Null, "PrepareDeal")
    case FromPlayer(id, PlaceBid(amount)) => RowWith(Int(id), "PlaceBid", "amount", Int(amount))
    case FromPlayer(id, PlayCard(card)) => RowWith(Int(id), "PlayCard", "card", Str(CardText(card)))
    case FromPlayer(id, CutDeck(position)) => RowWith(Int(id), "CutDeck", "position", Int(position))
    case FromPlayer(id, AcceptHand) => Row(Int(id), "AcceptHand")
    case FromPlayer(id, ClaimRedeal) => Row(Int(id), "ClaimRedeal")
    case FromPlayer(id, ShuffleDeck) => Row(Int(id), "ShuffleDeck")
    case FromPlayer(id, SkipCut) => Row(Int(id), "SkipCut")
    case FromPlayer(id, StartDistribution) => Row(Int(id), "StartDistribution")
  }

  predicate Exact(fields: map<string, Json>, keys: set<string>) {
    fields.Keys == keys
  }

  // The command of a row from a player, if its fields are exactly right.
  function DecodeAction(fields: map<string, Json>, name: string): Option<Action> {
    if name == "PlaceBid" then
      if Exact(fields, {"actor", "command", "amount"}) && fields["amount"].Int? then
          Some(PlaceBid(fields["amount"].number)) else None
    else if name == "PlayCard" then
      if Exact(fields, {"actor", "command", "card"}) && fields["card"].Str? && ParseCard(fields["card"].text).Some? then
        Some(PlayCard(ParseCard(fields["card"].text).value))
      else None
    else if name == "CutDeck" then
      if Exact(fields, {"actor", "command", "position"}) && fields["position"].Int? then
          Some(CutDeck(fields["position"].number)) else None
    else if !Exact(fields, {"actor", "command"}) then None
    else if name == "AcceptHand" then Some(AcceptHand)
    else if name == "ClaimRedeal" then Some(ClaimRedeal)
    else if name == "ShuffleDeck" then Some(ShuffleDeck)
    else if name == "SkipCut" then Some(SkipCut)
    else if name == "StartDistribution" then Some(StartDistribution)
    else None
  }

  function DecodeControl(fields: map<string, Json>, name: string): Option<Control> {
    if name == "PrepareDeal" then if Exact(fields, {"actor", "command"}) then Some(PrepareDeal) else None
    else if name != "StartDeal" && name != "Redeal" && name != "CompleteShuffle" then None
    else if !Exact(fields, {"actor", "command", "deck"}) || !fields["deck"].Arr? then None
    else
      match ParseDeck(fields["deck"].items)
      case None => None
      case Some(deck) =>
        Some(if name == "StartDeal" then StartDeal(deck) else if name == "Redeal" then Redeal(deck)
            else CompleteShuffle(deck))
  }

  // One row. A command whose actor is of the wrong kind, or whose number is not
  // an integer, decodes in the source but is then rejected by the reducer in
  // every state, so reading fails on it either way.
  function DecodeEntry(row: Json): Option<Entry> {
    if !row.Obj? || "command" !in row.fields || !row.fields["command"].Str? || "actor" !in row.fields then None
    else
      var name := row.fields["command"].text;
      var actor := row.fields["actor"];
      if actor.Null? then
        var command := DecodeControl(row.fields, name);
        if command.Some? then Some(FromController(command.value)) else None
      else if actor.Int? && actor.number >= 0 then
        var action := DecodeAction(row.fields, name);
        if action.Some? then Some(FromPlayer(actor.number, action.value)) else None
      else None
  }

  lemma RowIs(fields: map<string, Json>, actor: Json, name: string)
    requires "actor" in fields && "command" in fields
    ensures Exact(fields, {"actor", "command"}) && fields["actor"] == actor && fields["command"] == Str(name)
            <==> Obj(fields) == Row(actor, name)
  {
  }

  lemma RowWithIs(fields: map<string, Json>, actor: Json, name: string, field: string, value: Json)
    requires "actor" in fields && "command" in fields && field != "actor" && field != "command"
    ensures Exact(fields, {"actor", "command", field}) && fields["actor"] == actor
            && fields["command"] == Str(name) && fields[field] == value
            <==> Obj(fields) == RowWith(actor, name, field, value)
  {
    var row := RowWith(actor, name, field, value).fields;
    assert row.Keys == {"actor", "command", field};
    if Obj(fields) == Obj(row) { assert fields == row; }
    if Exact(fields, {"actor", "command", field}) && fields["actor"] == actor
       && fields["command"] == Str(name) && fields[field] == value {
      assert fields == row;
    }
  }

  lemma ControlRow(fields: map<string, Json>, command: Control)
    requires "actor" in fields && "command" in fields && fields["actor"] == Null && fields["command"].Str?
    ensures DecodeControl(fields, fields["command"].text) == Some(command)
            <==> Obj(fields) == EncodeEntry(FromController(command))
  {
    hide ParseDeck, DeckRows;
    var name := fields["command"].text;
    match command
    case PrepareDeal => RowIs(fields, Null, "PrepareDeal");
    case StartDeal(deck) => DeckRow(fields, "StartDeal", deck);
    case Redeal(deck) => DeckRow(fields, "Redeal", deck);
    case CompleteShuffle(deck) => DeckRow(fields, "CompleteShuffle", deck);
  }

  lemma DeckRow(fields: map<string, Json>, name: string, deck: seq<Card>)
    requires "actor" in fields && "command" in fields && fields["actor"] == Null
    ensures Obj(fields) == RowWith(Null, name, "deck", Arr(DeckRows(deck))) <==>
            Exact(fields, {"actor", "command", "deck"}) && fields["command"] == Str(name)
            && fields["deck"].Arr? && ParseDeck(fields["deck"].items) == Some(deck)
  {
    hide ParseDeck, DeckRows;
    RowWithIs(fields, Null, name, "deck", Arr(DeckRows(deck)));
    if "deck" in fields && fields["deck"].Arr? { ParseDeckIs(fields["deck"].items, deck); }
  }

  lemma ActionRow(fields: map<string, Json>, id: nat, action: Action)
    requires "actor" in fields && "command" in fields && fields["actor"] == Int(id) && fields["command"].Str?
    ensures DecodeAction(fields, fields["command"].text) == Some(action)
            <==> Obj(fields) == EncodeEntry(FromPlayer(id, action))
  {
    hide ParseCard, CardText;
    match action
    case PlaceBid(amount) => RowWithIs(fields, Int(id), "PlaceBid", "amount", Int(amount));
    case CutDeck(position) => RowWithIs(fields, Int(id), "CutDeck", "position", Int(position));
    case PlayCard(card) =>
      RowWithIs(fields, Int(id), "PlayCard", "card", Str(CardText(card)));
      if "card" in fields && fields["card"].Str? { ParseCardIs(fields["card"].text, card); }
    case AcceptHand => RowIs(fields, Int(id), "AcceptHand");
    case ClaimRedeal => RowIs(fields, Int(id), "ClaimRedeal");
    case ShuffleDeck => RowIs(fields, Int(id), "ShuffleDeck");
    case SkipCut => RowIs(fields, Int(id), "SkipCut");
    case StartDistribution => RowIs(fields, Int(id), "StartDistribution");
  }

  lemma EncodedRow(e: Entry)
    ensures EncodeEntry(e).Obj?
    ensures var fields := EncodeEntry(e).fields;
            && "actor" in fields && "command" in fields && fields["command"].Str?
            && fields["actor"] == match e case FromController(_) => Null case FromPlayer(id, _) => Int(id)
  {
    match e
    case FromController(command) =>
    case FromPlayer(id, action) =>
  }

  // A row decodes to exactly the entry it encodes.
  lemma EntryIs(row: Json, e: Entry)
    ensures DecodeEntry(row) == Some(e) <==> row == EncodeEntry(e)
  {
    EncodedRow(e);
    hide DecodeControl, DecodeAction, EncodeEntry;
    if row.Obj? && "command" in row.fields && row.fields["command"].Str? && "actor" in row.fields {
      var actor := row.fields["actor"];
      match e
      case FromController(command) => if actor.Null? { ControlRow(row.fields, command); }
      case FromPlayer(id, action) => if actor == Int(id) { ActionRow(row.fields, id, action); }
    }
  }

  // ---- records

  function Rows(entries: seq<Entry>): (r: seq<Json>)
    ensures |r| == |entries|
  {
    seq(|entries|, i requires 0 <= i < |entries| => EncodeEntry(entries[i]))
  }

  function ParseRows(items: seq<Json>): (r: Option<seq<Entry>>)
    ensures r.Some? ==> |r.value| == |items|
  {
    if items == [] then Some([])
    else
      var init, last := ParseRows(items[..|items| - 1]), DecodeEntry(items[|items| - 1]);
      if init.Some? && last.Some? then Some(init.value + [last.value]) else None
  }

  lemma {:induction false} ParseRowsIs(items: seq<Json>, entries: seq<Entry>)
    ensures ParseRows(items) == Some(entries) <==> items == Rows(entries)
  {
    hide DecodeEntry, EncodeEntry;
    if items == [] {
      assert Rows(entries) == [] ==> entries == [];
    } else if entries != [] {
      var last := items[|items| - 1];
      ParseRowsIs(items[..|items| - 1], entries[..|entries| - 1]);
      EntryIs(last, entries[|entries| - 1]);
      assert items == items[..|items| - 1] + [last];
      assert entries == entries[..|entries| - 1] + [entries[|entries| - 1]];
      assert Rows(entries) == Rows(entries[..|entries| - 1]) + [EncodeEntry(entries[|entries| - 1])];
    }
  }

  function ThresholdName(rank: Rank): string {
    if rank == 11 then "JACK" else "QUEEN"
  }

  function EncodeConfig(c: Config): Json {
    Obj(map["player_count" := Int(c.count), "deals_per_match" := Int(DEALS), "ruleset" := Str("callbreak-v1"),
            "undealt_policy" := Str("hidden_unused"), "weak_hand_enabled" := Bool(c.policy.weakHandEnabled),
            "weak_hand_threshold" := Str(ThresholdName(c.policy.weakHandThreshold)),
            "no_spades_enabled" := Bool(c.policy.noSpadesEnabled)])
  }

  // GameConfig and RedealPolicy on decoded fields.
  function DecodeConfig(j: Json): (r: Option<Config>)
    ensures r.Some? ==> ConfigFormed(r.value)
  {
    if !j.Obj? || !Exact(j.fields, {"player_count", "deals_per_match", "ruleset", "undealt_policy", "weak_hand_enabled",
                                    "weak_hand_threshold", "no_spades_enabled"}) then None
    else
      var f := j.fields;
      var threshold := f["weak_hand_threshold"];
      if (f["player_count"] != Int(4) && f["player_count"] != Int(5)) || f["deals_per_match"] != Int(DEALS)
         || !f["weak_hand_enabled"].Bool? || !f["no_spades_enabled"].Bool?
         || (threshold != Str("JACK") && threshold != Str("QUEEN"))
         || f["undealt_policy"] != Str("hidden_unused") || f["ruleset"] != Str("callbreak-v1") then None
      else
        Some(Config(f["player_count"].number,
                    Policy(f["weak_hand_enabled"].flag, if threshold == Str("JACK") then JACK
                        else QUEEN, f["no_spades_enabled"].flag)))
  }

  lemma ConfigIs(j: Json, c: Config)
    requires ConfigFormed(c)
    ensures DecodeConfig(j) == Some(c) <==> j == EncodeConfig(c)
  {
    var want := EncodeConfig(c).fields;
    assert want.Keys == {"player_count", "deals_per_match", "ruleset", "undealt_policy", "weak_hand_enabled",
                         "weak_hand_threshold", "no_spades_enabled"};
    if DecodeConfig(j) == Some(c) {
      assert j.fields == want;
    }
  }

  predicate Restores(r: Replay) {
    && ConfigFormed(r.config) && 1 <= r.initialDealer <= r.config.count
    && Restored(r.config, r.initialDealer, r.entries).Accepted?
  }

  // dumps
  function Dump(r: Replay): Json {
    Obj(map["version" := Int(1), "config" := EncodeConfig(r.config), "initial_dealer" := Int(r.initialDealer),
            "entries" := Arr(Rows(r.entries))])
  }

  // loads, as one expression.
  function Load(j: Json): Option<Replay> {
    if !j.Obj? || !Exact(j.fields, {"version", "config", "initial_dealer",
        "entries"}) || j.fields["version"] != Int(1) then None
    else
      var config := DecodeConfig(j.fields["config"]);
      if config.None? || !j.fields["entries"].Arr? || !j.fields["initial_dealer"].Int? then None
      else
        var entries := ParseRows(j.fields["entries"].items);
        if entries.None? then None
        else
          var r := Replay(config.value, j.fields["initial_dealer"].number, entries.value);
          if Restores(r) then Some(r) else None
  }

  // Loading yields r exactly on the dump of r, for every r that restores:
  // loads(dumps(r)) == r, nothing else is accepted, and no two texts agree.
  lemma LoadIs(j: Json, r: Replay)
    ensures Load(j) == Some(r) <==> Restores(r) && j == Dump(r)
  {
    hide EncodeConfig, DecodeConfig, Rows, ParseRows, Restored;
    var want := Dump(r).fields;
    assert want.Keys == {"version", "config", "initial_dealer", "entries"};
    if j.Obj? && j.fields.Keys == want.Keys {
      if ConfigFormed(r.config) { ConfigIs(j.fields["config"], r.config); }
      if j.fields["entries"].Arr? { ParseRowsIs(j.fields["entries"].items, r.entries); }
      if Load(j) == Some(r) { assert j.fields == want; }
    }
  }

  // What is loaded is the record of an audited match.
  lemma LoadedIsAudited(j: Json)
    ensures Load(j).Some? ==>
              var r := Load(j).value;
              Restores(r) && AuditedMatch(Restored(r.config, r.initialDealer, r.entries).next)
                  && Load(Dump(r)) == Some(r)
  {
    hide Restored, Dump, AuditedMatch;
    if Load(j).Some? {
      var r := Load(j).value;
      LoadIs(j, r);
      RunAudited(r.config, r.initialDealer, r.entries);
    }
  }

  // ---- the loops of dumps and loads

  method Dumps(r: Replay) returns (j: Json)
    ensures j == Dump(r)
  {
    var rows := [];
    for i := 0 to |r.entries|
      invariant rows == Rows(r.entries[..i])
    {
      rows := rows + [EncodeEntry(r.entries[i])];
      assert r.entries[..i + 1] == r.entries[..i] + [r.entries[i]];
    }
    assert r.entries[..|r.entries|] == r.entries;
    j := Obj(map["version" := Int(1), "config" := EncodeConfig(r.config), "initial_dealer" := Int(r.initialDealer),
                 "entries" := Arr(rows)]);
  }

  lemma {:induction false} BadRow(items: seq<Json>, k: nat)
    requires k < |items| && DecodeEntry(items[k]).None?
    ensures ParseRows(items).None?
  {
    if k < |items| - 1 { BadRow(items[..|items| - 1], k); }
  }

  method Loads(j: Json) returns (r: Option<Replay>)
    ensures r == Load(j)
    ensures forall replay :: r == Some(replay) <==> Restores(replay) && j == Dump(replay)
  {
    hide DecodeEntry, Restored, Dump, EncodeConfig;
    forall replay ensures Load(j) == Some(replay) <==> Restores(replay) && j == Dump(replay) { LoadIs(j, replay); }
    if !j.Obj? || !Exact(j.fields, {"version", "config", "initial_dealer",
        "entries"}) || j.fields["version"] != Int(1) {
      return None;
    }
    var config := DecodeConfig(j.fields["config"]);
    if config.None? || !j.fields["entries"].Arr? || !j.fields["initial_dealer"].Int? {
      return None;
    }
    var items := j.fields["entries"].items;
    var entries := [];
    for i := 0 to |items|
      invariant ParseRows(items[..i]) == Some(entries)
    {
      var entry := DecodeEntry(items[i]);
      if entry.None? {
        BadRow(items, i);
        return None;
      }
      assert items[..i + 1][..i] == items[..i];
      entries := entries + [entry.value];
    }
    assert items[..|items|] == items;
    var replay := Replay(config.value, j.fields["initial_dealer"].number, entries);
    if !(1 <= replay.initialDealer <= replay.config.count) {
      return None;
    }
    var state := Restore(replay.config, replay.initialDealer, replay.entries);
    r := if state.Accepted? then Some(replay) else None;
  }
}

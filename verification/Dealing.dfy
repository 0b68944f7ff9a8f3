// Cards dealt one at a time round a table, and the piles this leaves. A seat's
// hand is a stride of the deck, starting at the place at which the seat is
// served, counting from the dealer's left; the rest of the deck is what remains.
// Hands and rest together are the deck again, whoever deals and however many
// are served.
module Dealing {
  import opened Prelude
  import opened Cards

  function Flat<T>(lists: seq<seq<T>>): seq<T> {
    if lists == [] then [] else Flat(lists[..|lists| - 1]) + lists[|lists| - 1]
  }

  lemma {:induction false} FlatElems(lists: seq<seq<Card>>, c: Card)
    ensures c in Flat(lists) <==> exists q :: 0 <= q < |lists| && c in lists[q]
  {
    if lists != [] {
      var init, last := lists[..|lists| - 1], lists[|lists| - 1];
      FlatElems(init, c);
      assert c in Flat(lists) <==> c in Flat(init) || c in last;
      if c in Flat(init) {
        var q :| 0 <= q < |init| && c in init[q];
        assert c in lists[q];
      }
      if q :| 0 <= q < |lists| && c in lists[q] {
        if q < |init| { assert c in init[q]; }
      }
    }
  }

  lemma {:induction false} FlatLength(lists: seq<seq<Card>>, each: nat)
    requires forall q :: 0 <= q < |lists| ==> |lists[q]| == each
    ensures |Flat(lists)| == |lists| * each
  {
    if lists != [] {
      FlatLength(lists[..|lists| - 1], each);
    }
  }

  lemma {:induction false} FlatParts(lists: seq<seq<Card>>, q: nat)
    requires q < |lists| && NoDup(Flat(lists))
    ensures NoDup(lists[q])
  {
    var init, last := lists[..|lists| - 1], lists[|lists| - 1];
    NoDupConcat(Flat(init), last);
    if q < |init| {
      FlatParts(init, q);
    }
  }

  lemma {:induction false} FlatApart(lists: seq<seq<Card>>, p: nat, q: nat, c: Card)
    requires p < |lists| && q < |lists| && p != q && NoDup(Flat(lists)) && c in lists[p]
    ensures c !in lists[q]
  {
    var init, last := lists[..|lists| - 1], lists[|lists| - 1];
    NoDupConcat(Flat(init), last);
    if p < |init| && q < |init| {
      FlatApart(init, p, q, c);
    } else {
      FlatElems(init, c);
      assert c in last ==> c in Elems(last);
      assert c in Flat(init) ==> c in Elems(Flat(init));
      assert p < |init| ==> lists[p] == init[p];
      assert q < |init| ==> lists[q] == init[q];
    }
  }

  function Advance(player: nat, count: nat, steps: nat): (r: nat)
    requires count > 0 && player > 0
    ensures 1 <= r <= count
  {
    Around(player - 1 + steps, count) + 1
  }

  // Which of the dealt hands a player receives.
  function HandIndex(dealer: nat, count: nat, id: nat): (i: nat)
    requires 1 <= dealer <= count && 1 <= id <= count
    ensures i < count
  {
    if id > dealer then id - 1 - dealer else id - 1 - dealer + count
  }

  lemma SameIndex(dealer: nat, n: nat, i: nat)
    requires 1 <= dealer <= n && i < n
    ensures HandIndex(dealer, n, Advance(dealer, n, i + 1)) == i
  {
  }

  lemma IndexSeat(dealer: nat, n: nat, id: nat)
    requires 1 <= dealer <= n && 1 <= id <= n
    ensures Advance(dealer, n, HandIndex(dealer, n, id) + 1) == id
  {
  }

  lemma DeckSize(deck: seq<Card>)
    requires FullDeck(deck)
    ensures |deck| == 52
  {
  }

  function DealtHands(deck: seq<Card>, dealer: nat, n: nat, each: nat): (r: seq<seq<Card>>)
    requires 1 <= dealer <= n && n * each <= |deck|
    ensures |r| == n && forall p :: 0 <= p < n ==>
            |r[p]| == each && r[p] == Stride(deck, HandIndex(dealer, n, p + 1), n, each)
  {
    seq(n, p requires 0 <= p < n => Stride(deck, HandIndex(dealer, n, p + 1), n, each))
  }

  lemma DealtSomewhere(deck: seq<Card>, dealer: nat, n: nat, each: nat, m: nat)
    requires 1 <= dealer <= n && n * each <= |deck| && m < |deck|
    ensures deck[m] in deck[n * each..] + Flat(DealtHands(deck, dealer, n, each))
  {
    hide Stride, HandIndex;
    var hands := DealtHands(deck, dealer, n, each);
    if m >= n * each {
      assert deck[n * each..][m - n * each] == deck[m];
    } else {
      DealtTo(deck, n, each, m);
      SameIndex(dealer, n, m % n);
      var p := Advance(dealer, n, m % n + 1) - 1;
      assert hands[p][m / n] == deck[m];
      FlatElems(hands, deck[m]);
    }
  }

  lemma DealtDeck(deck: seq<Card>, dealer: nat, n: nat, each: nat)
    requires FullDeck(deck) && 1 <= dealer <= n && n * each <= 52
    ensures FullDeck(deck[n * each..] + Flat(DealtHands(deck, dealer, n, each)))
  {
    hide DealtHands, Flat, Standard52;
    var hands := DealtHands(deck, dealer, n, each);
    FlatLength(hands, each);
    Standard52Is();
    var all := deck[n * each..] + Flat(hands);
    forall c: Card ensures c in all {
      assert c in Elems(deck);
      var m :| 0 <= m < |deck| && deck[m] == c;
      DealtSomewhere(deck, dealer, n, each, m);
    }
    assert Elems(all) == Elems(Standard52());
  }

  // A deck counted in either order.
  lemma DeckEitherWay(a: seq<Card>, b: seq<Card>)
    ensures FullDeck(a + b) <==> FullDeck(b + a)
  {
    ElemsConcat(a, b);
    ElemsConcat(b, a);
  }
}

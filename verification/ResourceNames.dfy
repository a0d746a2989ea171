/**
 The DPDK names of a handler's mempools and rings. The name is a prefix followed by the decimal port
 id and the decimal queue id with nothing between them, so two queues of two ports can share a name.
 */
module ResourceNames {
  import opened Common

  function DigitChar(d: nat): char
    requires d < 10
  {
    '0' + d as char
  }

  // std::to_string of a non-negative number.
  function Decimal(n: nat): (s: string)
    ensures s != []
  {
    if n < 10 then [DigitChar(n)] else Decimal(n / 10) + [DigitChar(n % 10)]
  }

  function MempoolName(pid: nat, qid: nat): string {
    "mp_tx_q" + Decimal(pid) + Decimal(qid)
  }

  function RingName(pid: nat, qid: nat): string {
    "ring_tx_q" + Decimal(pid) + Decimal(qid)
  }

  lemma {:induction false} DecimalInjective(a: nat, b: nat)
    requires Decimal(a) == Decimal(b)
    ensures a == b
  {
    if a >= 10 && b >= 10 {
      DropLast(a, b);
      DecimalInjective(a / 10, b / 10);
    }
  }

  // Two numbers of at least two digits: equal texts have equal last digits and equal rests.
  lemma DropLast(a: nat, b: nat)
    requires a >= 10 && b >= 10 && Decimal(a) == Decimal(b)
    ensures Decimal(a / 10) == Decimal(b / 10) && a % 10 == b % 10
  {
    SplitLast(Decimal(a / 10), DigitChar(a % 10), Decimal(b / 10), DigitChar(b % 10));
  }

  lemma SplitLast(a: string, c: char, b: string, d: char)
    requires a + [c] == b + [d]
    ensures a == b && c == d
  {
    assert (a + [c])[|a|] == c && (b + [d])[|b|] == d;
    assert (a + [c])[..|a|] == a && (b + [d])[..|b|] == b;
  }

  // The text of a longer number never starts with a zero.
  lemma {:induction false} NoLeadingZero(n: nat)
    requires n > 0
    ensures Decimal(n)[0] != '0'
  {
    if n >= 10 {
      NoLeadingZero(n / 10);
    }
  }

  // The queue id q of the first port spills its leading digit into the port id of the second.
  predicate Spills(p: nat, q: nat, p': nat, q': nat) {
    p > 0 && q >= 10 && p' == 10 * p + 1 && q' == q - 10
  }

  lemma SameLength(p: nat, q: nat, p': nat, q': nat)
    requires Decimal(p) + Decimal(q) == Decimal(p') + Decimal(q')
    requires |Decimal(q)| == |Decimal(q')|
    ensures p == p' && q == q'
  {
    var s := Decimal(p) + Decimal(q);
    assert s[..|Decimal(p)|] == Decimal(p) && s[|Decimal(p)|..] == Decimal(q);
    var t := Decimal(p') + Decimal(q');
    assert t[..|Decimal(p')|] == Decimal(p') && t[|Decimal(p')|..] == Decimal(q');
    DecimalInjective(p, p');
    DecimalInjective(q, q');
  }

  lemma LongShort(p: nat, q: nat, p': nat, q': nat)
    requires 10 <= q < 20 && q' < 10
    ensures Decimal(p) + Decimal(q) == Decimal(p') + Decimal(q') <==> Spills(p, q, p', q')
  {
    assert Decimal(q / 10) == ['1'];
    var c, d := DigitChar(q % 10), DigitChar(q');
    assert Decimal(p) + Decimal(q) == (Decimal(p) + ['1']) + [c];
    if Decimal(p) + Decimal(q) == Decimal(p') + Decimal(q') {
      SplitLast(Decimal(p) + ['1'], c, Decimal(p'), d);
      assert |Decimal(p')| >= 2;
      SplitLast(Decimal(p), '1', Decimal(p' / 10), DigitChar(p' % 10));
      DecimalInjective(p, p' / 10);
      if p == 0 {
        NoLeadingZero(p');
      }
    }
    if Spills(p, q, p', q') {
      assert Decimal(p') == Decimal(p) + ['1'];
    }
  }

  lemma NamesDifferOnlyByPrefix(p: nat, q: nat, p': nat, q': nat)
    ensures MempoolName(p, q) == MempoolName(p', q') <==> Decimal(p) + Decimal(q) == Decimal(p') + Decimal(q')
    ensures RingName(p, q) == RingName(p', q') <==> Decimal(p) + Decimal(q) == Decimal(p') + Decimal(q')
  {
    var x, y := Decimal(p) + Decimal(q), Decimal(p') + Decimal(q');
    assert MempoolName(p, q) == "mp_tx_q" + x && MempoolName(p', q') == "mp_tx_q" + y;
    assert RingName(p, q) == "ring_tx_q" + x && RingName(p', q') == "ring_tx_q" + y;
    assert ("mp_tx_q" + x)[7..] == x && ("mp_tx_q" + y)[7..] == y;
    assert ("ring_tx_q" + x)[9..] == x && ("ring_tx_q" + y)[9..] == y;
  }

  /** The names meant to be unique are unique for the queues of MAX_QUEUE_PAIRS pairs exactly when no queue id of
      two digits spills into a port id: ports p and 10p+1 collide on queues 10+k and k. */
  lemma NamesUniqueUnlessSpilling(p: nat, q: nat, p': nat, q': nat)
    requires q < 2 * MAX_QUEUE_PAIRS && q' < 2 * MAX_QUEUE_PAIRS && (p, q) != (p', q')
    ensures MempoolName(p, q) == MempoolName(p', q') <==> Spills(p, q, p', q') || Spills(p', q', p, q)
    ensures RingName(p, q) == RingName(p', q') <==> Spills(p, q, p', q') || Spills(p', q', p, q)
  {
    NamesDifferOnlyByPrefix(p, q, p', q');
    if q >= 10 && q' < 10 {
      LongShort(p, q, p', q');
    } else if q < 10 && q' >= 10 {
      LongShort(p', q', p, q);
    } else if Decimal(p) + Decimal(q) == Decimal(p') + Decimal(q') {
      assert q >= 10 ==> |Decimal(q / 10)| == 1;
      assert q' >= 10 ==> |Decimal(q' / 10)| == 1;
      SameLength(p, q, p', q');
    }
  }

  // Ports 1 and 11 with six queue pairs each.
  lemma NamesCollide()
    ensures MempoolName(1, 11) == MempoolName(11, 1)
  {
    NamesUniqueUnlessSpilling(1, 11, 11, 1);
  }

  /** Up to eleven ports, or any number of ports with at most five pairs each, no two queues share a name. */
  lemma NamesUniqueOnSmallSetups(p: nat, q: nat, p': nat, q': nat)
    requires q < 2 * MAX_QUEUE_PAIRS && q' < 2 * MAX_QUEUE_PAIRS && (p, q) != (p', q')
    requires (p < 11 && p' < 11) || (q < 10 && q' < 10)
    ensures MempoolName(p, q) != MempoolName(p', q') && RingName(p, q) != RingName(p', q')
  {
    NamesUniqueUnlessSpilling(p, q, p', q');
  }
}

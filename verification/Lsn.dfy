/** Log sequence numbers as bytes, and why the rest of the model may treat them as numbers.
 *
 *  SQL Server hands out ten opaque bytes; the worker only compares two of them and asks whether
 *  one is missing. Both questions have the same answer for the big-endian number the bytes spell,
 *  so every other module uses that number and writes 0 for "no position".
 */
module Lsn {
  type Byte = b: int | 0 <= b < 256
  type Lsn = seq<Byte>

  predicate IsZero(l: Lsn) {
    forall i | 0 <= i < |l| :: l[i] == 0
  }

  /** Lexicographic order on bytes; a proper prefix comes first. */
  function Compare(a: Lsn, b: Lsn): int {
    if a == [] then (if b == [] then 0 else -1)
    else if b == [] then 1
    else if a[0] < b[0] then -1
    else if a[0] > b[0] then 1
    else Compare(a[1..], b[1..])
  }

  function Pow256(n: nat): (p: nat)
    ensures p > 0
  {
    if n == 0 then 1 else 256 * Pow256(n - 1)
  }

  function Value(l: Lsn): nat {
    if l == [] then 0 else l[0] * Pow256(|l| - 1) + Value(l[1..])
  }

  lemma {:induction false} Scale(x: int, y: int, p: nat)
    requires x <= y
    ensures x * p <= y * p
  {
  }

  lemma {:induction false} HighByteDecides(h: int, k: int, p: nat, x: int, y: int)
    requires h < k && x < p && 0 <= y
    ensures h * p + x < k * p + y
  {
    Scale(h + 1, k, p);
    assert (h + 1) * p == h * p + p;
  }

  lemma {:induction false} ValueBelow(l: Lsn)
    ensures Value(l) < Pow256(|l|)
  {
    if l != [] {
      ValueBelow(l[1..]);
      Scale(l[0], 255, Pow256(|l| - 1));
    }
  }

  /** Comparing two positions of one width is comparing the numbers they spell. */
  lemma {:induction false} CompareIsNumericOrder(a: Lsn, b: Lsn)
    requires |a| == |b|
    ensures Compare(a, b) < 0 <==> Value(a) < Value(b)
    ensures Compare(a, b) == 0 <==> Value(a) == Value(b)
    ensures Compare(a, b) == 0 <==> a == b
  {
    if a != [] {
      CompareIsNumericOrder(a[1..], b[1..]);
      ValueBelow(a[1..]);
      ValueBelow(b[1..]);
      var p := Pow256(|a| - 1);
      if a[0] < b[0] {
        HighByteDecides(a[0], b[0], p, Value(a[1..]), Value(b[1..]));
      } else if a[0] > b[0] {
        HighByteDecides(b[0], a[0], p, Value(b[1..]), Value(a[1..]));
      } else {
        assert a == [a[0]] + a[1..] && b == [b[0]] + b[1..];
      }
    }
  }

  /** A missing position and an all-zero one are the number 0, and nothing else is. */
  lemma {:induction false} ZeroIsNumberZero(l: Lsn)
    ensures IsZero(l) <==> Value(l) == 0
  {
    if l != [] {
      ZeroIsNumberZero(l[1..]);
      if l[0] > 0 {
        Scale(1, l[0], Pow256(|l| - 1));
      }
      assert IsZero(l) <==> l[0] == 0 && IsZero(l[1..]) by {
        if l[0] == 0 && IsZero(l[1..]) {
          forall i | 0 <= i < |l| ensures l[i] == 0 {
            if i > 0 { assert l[i] == l[1..][i - 1]; }
          }
        }
        if IsZero(l) {
          forall i | 0 <= i < |l[1..]| ensures l[1..][i] == 0 { assert l[1..][i] == l[i + 1]; }
        }
      }
    }
  }

  /** The bytes of a number, as many as there are to fill. */
  function Spell(n: nat, width: nat): (l: Lsn)
    requires n < Pow256(width)
    ensures |l| == width
    decreases width
  {
    if width == 0 then []
    else
      HighByteFits(n, Pow256(width - 1));
      [n / Pow256(width - 1)] + Spell(n % Pow256(width - 1), width - 1)
  }

  lemma {:induction false} HighByteFits(n: nat, p: nat)
    requires p > 0 && n < 256 * p
    ensures 0 <= n / p < 256 && n == n / p * p + n % p && n % p < p
  {
    var q := n / p;
    if q >= 256 { Scale(256, q, p); }
  }

  lemma {:induction false} ValueOfSpelled(n: nat, width: nat)
    requires n < Pow256(width)
    ensures Value(Spell(n, width)) == n
    decreases width
  {
    if width > 0 {
      var p := Pow256(width - 1);
      HighByteFits(n, p);
      ValueOfSpelled(n % p, width - 1);
      assert Spell(n, width)[1..] == Spell(n % p, width - 1);
    }
  }

  /** Every number that fits stands for exactly one position of that width, and all that is ever asked of
   *  positions - which of two comes first, whether they are the same, whether one is missing - has one
   *  answer for the bytes and for the numbers. This is why the other modules use the numbers. */
  lemma {:induction false} BytesAnswerLikeNumbers(a: nat, b: nat, width: nat)
    requires a < Pow256(width) && b < Pow256(width)
    ensures Compare(Spell(a, width), Spell(b, width)) < 0 <==> a < b
    ensures Spell(a, width) == Spell(b, width) <==> a == b
    ensures IsZero(Spell(a, width)) <==> a == 0
    ensures forall l: Lsn :: |l| == width ==> (Value(l) == a <==> l == Spell(a, width))
  {
    ValueOfSpelled(a, width);
    ValueOfSpelled(b, width);
    hide Spell, Value, IsZero, Compare, Pow256;
    CompareIsNumericOrder(Spell(a, width), Spell(b, width));
    ZeroIsNumberZero(Spell(a, width));
    forall l: Lsn | |l| == width ensures Value(l) == a <==> l == Spell(a, width) {
      CompareIsNumericOrder(l, Spell(a, width));
    }
  }
}

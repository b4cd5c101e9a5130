/** Ratings packed into one integer, as the contract, the TypeScript and the Go evaluators do. */
module Scores {
  import opened Ratings

  /** The i-th base-16 digit after the category: a tie-breaking rank plus an offset, or 0. */
  function Digit(v: Rating, bump: int, i: nat): int {
    if i < |v.ties| then v.ties[i] + bump else 0
  }

  /** Category first, then five digits. The contract and the TypeScript count ranks from 1, Go from 2. */
  function Encode(v: Rating, bump: int): int {
    v.cat * 1048576 + Digit(v, bump, 0) * 65536 + Digit(v, bump, 1) * 4096
    + Digit(v, bump, 2) * 256 + Digit(v, bump, 3) * 16 + Digit(v, bump, 4)
  }

  function Tail(v: Rating, bump: int): (n: int)
    requires WellFormed(v) && 1 <= bump <= 2
    ensures 0 <= n < 1048576 && Encode(v, bump) == v.cat * 1048576 + n
  {
    Digit(v, bump, 0) * 65536 + Digit(v, bump, 1) * 4096
    + Digit(v, bump, 2) * 256 + Digit(v, bump, 3) * 16 + Digit(v, bump, 4)
  }

  /** Both encodings order hands exactly as their ratings do. */
  lemma EncodeOrders(a: Rating, b: Rating, bump: int)
    requires WellFormed(a) && WellFormed(b) && 1 <= bump <= 2
    ensures Encode(a, bump) <= Encode(b, bump) <==> RatingLe(a, b)
  {
    hide Encode, Tail, LexLe;
    var m, n := Tail(a, bump), Tail(b, bump);
    if a.cat == b.cat {
      TailOrders(a, b, bump);
    }
  }

  lemma TailOrders(a: Rating, b: Rating, bump: int)
    requires WellFormed(a) && WellFormed(b) && 1 <= bump <= 2 && a.cat == b.cat
    ensures Tail(a, bump) <= Tail(b, bump) <==> LexLe(a.ties, b.ties)
  {
    hide LexLe;
    match |a.ties|
    case 1 => Lex1(a.ties, b.ties);
    case 2 => Lex2(a.ties, b.ties);
    case 3 => Lex3(a.ties, b.ties);
    case 4 => Lex4(a.ties, b.ties);
    case _ => Lex5(a.ties, b.ties);
  }

  lemma Lex1(a: seq<int>, b: seq<int>)
    requires |a| == |b| == 1
    ensures LexLe(a, b) <==> a[0] <= b[0]
  {
    assert LexLe(a[1..], b[1..]);
  }

  lemma Lex2(a: seq<int>, b: seq<int>)
    requires |a| == |b| == 2
    ensures LexLe(a, b) <==> a[0] < b[0] || (a[0] == b[0] && a[1] <= b[1])
  {
    Lex1(a[1..], b[1..]);
  }

  lemma Lex3(a: seq<int>, b: seq<int>)
    requires |a| == |b| == 3
    ensures LexLe(a, b) <==> a[0] < b[0] || (a[0] == b[0] && (a[1] < b[1] || (a[1] == b[1] && a[2] <= b[2])))
  {
    Lex2(a[1..], b[1..]);
  }

  lemma Lex4(a: seq<int>, b: seq<int>)
    requires |a| == |b| == 4
    ensures LexLe(a, b) <==> a[0] < b[0] || (a[0] == b[0] && (a[1] < b[1] || (a[1] == b[1] &&
                             (a[2] < b[2] || (a[2] == b[2] && a[3] <= b[3])))))
  {
    Lex3(a[1..], b[1..]);
  }

  lemma Lex5(a: seq<int>, b: seq<int>)
    requires |a| == |b| == 5
    ensures LexLe(a, b) <==> a[0] < b[0] || (a[0] == b[0] && (a[1] < b[1] || (a[1] == b[1] &&
                             (a[2] < b[2] || (a[2] == b[2] && (a[3] < b[3] || (a[3] == b[3] && a[4] <= b[4])))))))
  {
    Lex4(a[1..], b[1..]);
  }
}

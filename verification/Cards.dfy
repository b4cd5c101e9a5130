/** Playing cards and their canonical index. */
module Cards {
  const MIN_RANK: int := 2
  const MAX_RANK: int := 14
  const DECK_SIZE: int := 52

  datatype Card = Card(rank: int, suit: int)

  predicate Valid(c: Card) {
    MIN_RANK <= c.rank <= MAX_RANK && 0 <= c.suit <= 3
  }

  predicate AllValid(cs: seq<Card>) {
    forall i :: 0 <= i < |cs| ==> Valid(cs[i])
  }

  /** Card indices as the contract and the reference take them. */
  predicate AllIndices(cs: seq<int>) {
    forall i :: 0 <= i < |cs| ==> 0 <= cs[i] < DECK_SIZE
  }

  predicate NoDuplicates(cs: seq<int>) {
    forall i, j :: 0 <= i < j < |cs| ==> cs[i] != cs[j]
  }

  function Index(c: Card): int {
    (c.rank - MIN_RANK) * 4 + c.suit
  }

  function FromIndex(i: int): (c: Card)
    requires 0 <= i < DECK_SIZE
    ensures Valid(c) && Index(c) == i
  {
    Card(i / 4 + MIN_RANK, i % 4)
  }

  /** The index identifies a valid card. */
  lemma IndexRoundTrip(c: Card)
    requires Valid(c)
    ensures 0 <= Index(c) < DECK_SIZE && FromIndex(Index(c)) == c
    ensures Index(c) / 4 == c.rank - MIN_RANK && Index(c) % 4 == c.suit
  {
  }
}

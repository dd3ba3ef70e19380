/**
 * The owner key: the secret that the view route demands before it shows a
 * script (app/api/upload/route.ts, `generateOwnerKey`). The source draws each
 * of the 32 positions with `Math.floor(Math.random() * chars.length)`; here
 * those draws are the caller-supplied `draws`, each an index into the alphabet.
 */
module OwnerKey {

  /** `count` consecutive characters starting at `first`. */
  function Run(first: char, count: nat): (r: string)
    requires first as int + count <= 0xD800
    ensures |r| == count
    ensures forall i :: 0 <= i < count ==> r[i] as int == first as int + i
  {
    seq(count, i requires 0 <= i < count => (first as int + i) as char)
  }

  /** The 62 symbols a key is drawn from, in the source's order: A-Z, then a-z, then 0-9. */
  const Alphabet: string := Run('A', 26) + Run('a', 26) + Run('0', 10)

  /** The number of characters in every key. */
  const KeyLength: nat := 32

  predicate IsAlphanumeric(c: char) {
    ('A' <= c <= 'Z') || ('a' <= c <= 'z') || ('0' <= c <= '9')
  }

  /** The position of an alphanumeric character in the alphabet. */
  function IndexOf(c: char): (i: nat)
    requires IsAlphanumeric(c)
    ensures i < 62
  {
    if 'A' <= c <= 'Z' then c as int - 'A' as int
    else if 'a' <= c <= 'z' then c as int - 'a' as int + 26
    else c as int - '0' as int + 52
  }

  /** The alphabet is exactly A-Z, a-z, 0-9 in that order, each symbol once. */
  lemma AlphabetLayout()
    ensures |Alphabet| == 62
    ensures forall i :: 0 <= i < 62 ==> IsAlphanumeric(Alphabet[i]) && IndexOf(Alphabet[i]) == i
  {
    forall i | 0 <= i < 62
      ensures IsAlphanumeric(Alphabet[i]) && IndexOf(Alphabet[i]) == i
    {
      if i < 26 {
        assert Alphabet[i] == Run('A', 26)[i];
      } else if i < 52 {
        assert Alphabet[i] == Run('a', 26)[i - 26];
      } else {
        assert Alphabet[i] == Run('0', 10)[i - 52];
      }
    }
  }

  /** Every alphanumeric character is in the alphabet, and nothing else is. */
  lemma AlphabetMembership(c: char)
    ensures c in Alphabet <==> IsAlphanumeric(c)
  {
    AlphabetLayout();
    if IsAlphanumeric(c) {
      assert Alphabet[IndexOf(c)] == c;
    }
  }

  /** Well-formed draws: one index in [0, 62) per key position. */
  predicate ValidDraws(draws: seq<int>) {
    |draws| == KeyLength && forall i :: 0 <= i < |draws| ==> 0 <= draws[i] < |Alphabet|
  }

  /** The key that a sequence of draws produces. */
  function KeyOf(draws: seq<int>): (key: string)
    requires ValidDraws(draws)
    ensures |key| == KeyLength
    ensures forall i :: 0 <= i < |key| ==> IsAlphanumeric(key[i])
  {
    AlphabetLayout();
    seq(KeyLength, i requires 0 <= i < KeyLength => Alphabet[draws[i]])
  }

  /**
   * Different draws give different keys, so each of the 62^32 outcomes of
   * the draws is a distinct key.
   */
  lemma KeyDeterminesDraws(a: seq<int>, b: seq<int>)
    requires ValidDraws(a) && ValidDraws(b)
    requires KeyOf(a) == KeyOf(b)
    ensures a == b
  {
    AlphabetLayout();
    forall i | 0 <= i < KeyLength
      ensures a[i] == b[i]
    {
      assert IndexOf(KeyOf(a)[i]) == a[i];
      assert IndexOf(KeyOf(b)[i]) == b[i];
    }
  }

  /** `generateOwnerKey`: appends one drawn symbol per iteration, 32 times. */
  method Generate(draws: seq<int>) returns (key: string)
    requires ValidDraws(draws)
    ensures key == KeyOf(draws)
  {
    key := "";
    for i := 0 to KeyLength
      invariant |key| == i
      invariant forall j :: 0 <= j < i ==> key[j] == Alphabet[draws[j]]
    {
      key := key + [Alphabet[draws[i]]];
    }
  }
}

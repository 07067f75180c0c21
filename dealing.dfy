/** The dealing of a random layout (`randomLayout` in generate.go): each cell
    takes the symbol at a drawn index of the shrinking pool, the symbol is
    removed from the pool, and its corpus frequency is added to the total.
    The draws of `rand.Intn(len(chars))` are supplied as `picks`. */
module Dealing {
  import opened Keyboard

  /** Sum of the frequencies of the symbols in `s`. */
  function SumFreq(s: seq<char>, letters: map<char, int>): int {
    if s == [] then 0 else Freq(letters, s[0]) + SumFreq(s[1..], letters)
  }

  /** `strings.Replace(s, c, "", 1)`: drop the first occurrence of `c`. */
  function RemoveFirst(s: seq<char>, c: char): (r: seq<char>)
    ensures c in s ==> |r| == |s| - 1
    ensures c !in s ==> r == s
    ensures multiset(r) == multiset(s) - multiset{c}
  {
    if s == [] then []
    else
      assert s == [s[0]] + s[1..];
      if s[0] == c then s[1..]
      else
        var t := RemoveFirst(s[1..], c);
        assert multiset([s[0]] + t) == multiset{s[0]} + multiset(t);
        [s[0]] + t
  }

  /** Each draw is in range for the pool as it is when drawn: the k-th draw
      comes from a pool that has lost k symbols, as `rand.Intn(len(chars))` promises. */
  predicate ValidPicks(pool: seq<char>, picks: seq<int>) {
    |picks| <= |pool| && forall k :: 0 <= k < |picks| ==> 0 <= picks[k] < |pool| - k
  }

  /** The symbols placed, in the order the cells are filled. */
  function Deal(pool: seq<char>, picks: seq<int>): (r: seq<char>)
    requires ValidPicks(pool, picks)
    ensures |r| == |picks|
    ensures forall x :: x in r ==> x in pool
    decreases |picks|
  {
    if picks == [] then []
    else
      var c := pool[picks[0]];
      var rest := RemoveFirst(pool, c);
      assert ValidPicks(rest, picks[1..]);
      assert forall x :: x in rest ==> x in multiset(rest);
      [c] + Deal(rest, picks[1..])
  }

  /** The pool a random layout is dealt from holds 30 different symbols. */
  lemma AlphabetDistinct()
    ensures |ALPHABET| == CELLS && Distinct(ALPHABET)
  {
    assert forall i :: 0 <= i < 26 ==> ALPHABET[i] as int == 'a' as int + i;
    assert Distinct(ALPHABET[26..]) && forall i :: 26 <= i < CELLS ==> ALPHABET[i] < 'a';
  }

  /** One dealing step: the first symbol placed is the drawn one, and the
      rest is dealt from the pool without it. */
  lemma DealStep(pool: seq<char>, picks: seq<int>)
    requires ValidPicks(pool, picks) && picks != []
    ensures ValidPicks(RemoveFirst(pool, pool[picks[0]]), picks[1..])
    ensures Deal(pool, picks) == [pool[picks[0]]] + Deal(RemoveFirst(pool, pool[picks[0]]), picks[1..])
  {
    var rest := RemoveFirst(pool, pool[picks[0]]);
    assert ValidPicks(rest, picks[1..]);
  }

  lemma DistinctTail(s: seq<char>)
    requires Distinct(s) && s != []
    ensures Distinct(s[1..]) && s[0] !in s[1..]
  {
    forall i, j | 0 <= i < j < |s| - 1 ensures s[1..][i] != s[1..][j] {
      assert s[1..][i] == s[i + 1] && s[1..][j] == s[j + 1];
    }
  }

  lemma DistinctCons(c: char, t: seq<char>)
    requires Distinct(t) && c !in t
    ensures Distinct([c] + t)
  {
    var r := [c] + t;
    forall i, j | 0 <= i < j < |r| ensures r[i] != r[j] {
      assert r[j] == t[j - 1];
      if i > 0 { assert r[i] == t[i - 1]; }
    }
  }

  /** Removing a symbol from a pool without repeats leaves a pool without
      repeats, and without that symbol. */
  lemma {:induction false} RemoveFirstDistinct(s: seq<char>, c: char)
    requires Distinct(s)
    ensures Distinct(RemoveFirst(s, c)) && c !in RemoveFirst(s, c)
  {
    if s != [] {
      DistinctTail(s);
      if s[0] != c {
        var t := RemoveFirst(s[1..], c);
        RemoveFirstDistinct(s[1..], c);
        assert s[0] !in t by {
          assert multiset(t)[s[0]] <= multiset(s[1..])[s[0]] == 0;
        }
        DistinctCons(s[0], t);
      }
    }
  }

  /** The drawn symbol occurs first at the drawn index (always so in a pool
      without repeats), so removing it deletes exactly that index. */
  lemma {:induction false} RemoveFirstAt(s: seq<char>, i: int)
    requires 0 <= i < |s| && s[i] !in s[..i]
    ensures RemoveFirst(s, s[i]) == s[..i] + s[i + 1..]
  {
    if i == 0 {
      assert s[..0] + s[1..] == s[1..];
    } else {
      var t, c := s[1..], s[i];
      assert s[0] != c by { assert s[0] == s[..i][0]; }
      assert c !in t[..i - 1] by { assert t[..i - 1] == s[1..i]; }
      RemoveFirstAt(t, i - 1);
      SpliceCons(s, i);
    }
  }

  lemma SpliceCons(s: seq<char>, i: int)
    requires 0 < i < |s|
    ensures [s[0]] + (s[1..][..i - 1] + s[1..][i..]) == s[..i] + s[i + 1..]
  {
    var t := s[1..];
    var r := [s[0]] + (t[..i - 1] + t[i..]);
    forall k | 0 <= k < |r| ensures r[k] == (s[..i] + s[i + 1..])[k] {
      if 0 < k < i {
        assert r[k] == t[k - 1];
      } else if k >= i {
        assert r[k] == t[k];
      }
    }
  }

  /** A pool without repeats deals no symbol twice. */
  lemma {:induction false} DealDistinct(pool: seq<char>, picks: seq<int>)
    requires ValidPicks(pool, picks) && Distinct(pool)
    ensures Distinct(Deal(pool, picks))
    decreases |picks|
  {
    if picks != [] {
      var c := pool[picks[0]];
      var rest := RemoveFirst(pool, c);
      assert ValidPicks(rest, picks[1..]);
      RemoveFirstDistinct(pool, c);
      DealDistinct(rest, picks[1..]);
      var t := Deal(rest, picks[1..]);
      assert c !in t;
      DistinctCons(c, t);
    }
  }

  /** Dealing a whole pool places every symbol of it exactly as often as it
      occurs in the pool: the pool is never exhausted early and nothing is lost. */
  lemma {:induction false} DealIsPermutation(pool: seq<char>, picks: seq<int>)
    requires ValidPicks(pool, picks) && |picks| == |pool|
    ensures multiset(Deal(pool, picks)) == multiset(pool)
    decreases |picks|
  {
    if picks != [] {
      var c := pool[picks[0]];
      var rest := RemoveFirst(pool, c);
      assert ValidPicks(rest, picks[1..]);
      DealIsPermutation(rest, picks[1..]);
      assert Deal(pool, picks) == [c] + Deal(rest, picks[1..]);
    }
  }

  lemma {:induction false} RemoveFirstSum(s: seq<char>, c: char, letters: map<char, int>)
    requires c in s
    ensures SumFreq(s, letters) == Freq(letters, c) + SumFreq(RemoveFirst(s, c), letters)
  {
    if s[0] != c {
      RemoveFirstSum(s[1..], c, letters);
      var t := RemoveFirst(s[1..], c);
      assert ([s[0]] + t)[1..] == t;
    }
  }

  /** The total of a dealt layout does not depend on the draws: it is the sum
      over the whole pool. */
  lemma {:induction false} DealTotal(pool: seq<char>, picks: seq<int>, letters: map<char, int>)
    requires ValidPicks(pool, picks) && |picks| == |pool|
    ensures SumFreq(Deal(pool, picks), letters) == SumFreq(pool, letters)
    decreases |picks|
  {
    if picks != [] {
      var c := pool[picks[0]];
      var rest := RemoveFirst(pool, c);
      assert ValidPicks(rest, picks[1..]);
      DealTotal(rest, picks[1..], letters);
      RemoveFirstSum(pool, c, letters);
      assert ([c] + Deal(rest, picks[1..]))[1..] == Deal(rest, picks[1..]);
    }
  }
}

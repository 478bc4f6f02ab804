/** Small vocabulary shared by the modelled components. */
module Common {

  datatype Option<+T> = None | Some(value: T)

  datatype Result<+T, +E> = Success(value: T) | Failure(error: E)

  /** The byte of a Node `Buffer`. */
  type Byte = x: int | 0 <= x < 256

  /** A SHA-256 digest as raw bytes. */
  type Digest = d: seq<Byte> | |d| == 32 witness seq(32, _ => 0)

  ghost predicate NoDuplicates<T>(s: seq<T>) {
    forall i, j :: 0 <= i < j < |s| ==> s[i] != s[j]
  }

  function Elements<T>(s: seq<T>): set<T> {
    set x | x in s
  }

  lemma {:induction false} DistinctCount<T>(s: seq<T>)
    ensures |Elements(s)| <= |s|
    ensures NoDuplicates(s) <==> |Elements(s)| == |s|
  {
    if s == [] {
    } else {
      var init, last := s[..|s| - 1], s[|s| - 1];
      DistinctCount(init);
      assert s == init + [last];
      assert Elements(s) == Elements(init) + {last};
      if last in init {
        assert Elements(s) == Elements(init);
        var k :| 0 <= k < |init| && init[k] == last;
        assert s[k] == s[|s| - 1];
      } else {
        assert |Elements(s)| == |Elements(init)| + 1;
        assert NoDuplicates(s) <==> NoDuplicates(init);
      }
    }
  }

  lemma SubsetCardinality<T>(a: set<T>, b: set<T>)
    requires a <= b
    ensures |a| <= |b|
    ensures |a| == |b| ==> a == b
  {
    assert b == a + (b - a);
    assert |b| == |a| + |b - a|;
    if |a| == |b| {
      assert b - a == {};
    }
  }

  lemma {:induction false} DistinctMultiset<T>(s: seq<T>)
    requires NoDuplicates(s)
    ensures multiset(s) == multiset(Elements(s))
  {
    if |s| > 0 {
      var init, last := s[..|s| - 1], s[|s| - 1];
      assert s == init + [last];
      DistinctMultiset(init);
      assert last !in init;
      assert Elements(s) == Elements(init) + {last};
    }
  }

  function LowerChar(c: char): char {
    if 'A' <= c <= 'Z' then (c as int - 'A' as int + 'a' as int) as char else c
  }

  function Lower(s: string): (r: string)
    ensures |r| == |s|
  {
    seq(|s|, i requires 0 <= i < |s| => LowerChar(s[i]))
  }
}

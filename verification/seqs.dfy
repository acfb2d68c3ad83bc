/** Generic sequence helpers shared by the text, naming and job models:
    reversal (Python's `s[::-1]`), substring search (Python's `sub in s`) and
    assignment on an insertion-ordered dictionary (Python's `d[k] = v`),
    and the monotonicity of products used by the index arithmetic of the
    batch loop and the image grid. */
module Seqs {

  /** A value, or nothing (Python's None, or a raised exception, where the
      caller says so). */
  datatype Option<T> = None | Some(value: T)

  /** The sequence read back to front. Its pointwise meaning is stated by
      the lemma `ReverseAt` rather than here, so that proofs which only
      move Reverse around do not pay for it. */
  function Reverse<T>(s: seq<T>): (r: seq<T>)
    ensures |r| == |s|
  {
    if s == [] then [] else Reverse(s[1..]) + [s[0]]
  }

  /** Element i of the reverse is element |s| - 1 - i of the original. */
  lemma {:induction false} ReverseAt<T>(s: seq<T>, i: int)
    requires 0 <= i < |s|
    ensures Reverse(s)[i] == s[|s| - 1 - i]
  {
    if i < |s| - 1 {
      ReverseAt(s[1..], i);
      assert Reverse(s) == Reverse(s[1..]) + [s[0]];
    }
  }

  lemma {:induction false} ReverseIndices<T>(s: seq<T>)
    ensures forall i :: 0 <= i < |s| ==> Reverse(s)[i] == s[|s| - 1 - i]
  {
    forall i | 0 <= i < |s| ensures Reverse(s)[i] == s[|s| - 1 - i] {
      ReverseAt(s, i);
    }
  }

  lemma {:induction false} ReverseInvolution<T>(s: seq<T>)
    ensures Reverse(Reverse(s)) == s
  {
    ReverseIndices(s);
    ReverseIndices(Reverse(s));
  }

  lemma {:induction false} ReverseConcat<T>(a: seq<T>, b: seq<T>)
    ensures Reverse(a + b) == Reverse(b) + Reverse(a)
  {
    ReverseIndices(a);
    ReverseIndices(b);
    ReverseIndices(a + b);
    var l := Reverse(a + b);
    var r := Reverse(b) + Reverse(a);
    assert forall i :: 0 <= i < |a + b| ==> l[i] == r[i];
  }

  /** `sub` occurs in `s` starting at index `i`. */
  ghost predicate OccursAt<T>(sub: seq<T>, s: seq<T>, i: int)
  {
    0 <= i && i + |sub| <= |s| && s[i..i + |sub|] == sub
  }

  /** Substring (sub-sequence of adjacent elements) search; the empty
      sequence occurs everywhere. */
  function Contains<T(==)>(s: seq<T>, sub: seq<T>): (r: bool)
    ensures r <==> exists i :: OccursAt(sub, s, i)
    decreases |s|
  {
    if |sub| > |s| then false
    else if s[..|sub|] == sub then
      assert OccursAt(sub, s, 0);
      true
    else
      var rest := Contains(s[1..], sub);
      assert forall i :: OccursAt(sub, s[1..], i) <==> OccursAt(sub, s, i + 1) by {
        forall i ensures OccursAt(sub, s[1..], i) <==> OccursAt(sub, s, i + 1) {
          if 0 <= i && i + |sub| <= |s| - 1 {
            assert s[1..][i..i + |sub|] == s[i + 1..i + 1 + |sub|];
          }
        }
      }
      assert !OccursAt(sub, s, 0);
      assert rest ==> OccursAt(sub, s, 1 + var i :| OccursAt(sub, s[1..], i); i);
      assert (exists i :: OccursAt(sub, s, i)) ==> rest by {
        if exists i :: OccursAt(sub, s, i) {
          var i :| OccursAt(sub, s, i);
          assert i != 0;
          assert OccursAt(sub, s[1..], i - 1);
        }
      }
      rest
  }

  /** The dictionary `d` (a list of key/value pairs) has an entry for `k`. */
  predicate HasKey<K(==), V>(d: seq<(K, V)>, k: K)
  {
    exists i :: 0 <= i < |d| && d[i].0 == k
  }

  /** No key appears twice, as in every Python dict. */
  predicate DistinctKeys<K(==), V>(d: seq<(K, V)>)
  {
    forall i, j :: 0 <= i < j < |d| ==> d[i].0 != d[j].0
  }

  /** Python's `d[k] = v` on an insertion-ordered dict: an existing key keeps
      its position and takes the new value, a new key is added last. */
  function Put<K(==), V>(d: seq<(K, V)>, k: K, v: V): (r: seq<(K, V)>)
    ensures !HasKey(d, k) ==> r == d + [(k, v)]
    ensures HasKey(d, k) ==> |r| == |d|
    ensures forall i :: 0 <= i < |d| && d[i].0 != k ==> r[i] == d[i]
    ensures HasKey(r, k)
  {
    if d == [] then
      assert [(k, v)][0].0 == k;
      [(k, v)]
    else if d[0].0 == k then
      assert ([(k, v)] + d[1..])[0].0 == k;
      [(k, v)] + d[1..]
    else
      assert HasKey(d, k) <==> HasKey(d[1..], k) by {
        if HasKey(d, k) {
          var i :| 0 <= i < |d| && d[i].0 == k;
          assert d[1..][i - 1].0 == k;
        }
        if HasKey(d[1..], k) {
          var i :| 0 <= i < |d[1..]| && d[1..][i].0 == k;
          assert d[i + 1].0 == k;
        }
      }
      var rest := Put(d[1..], k, v);
      var i :| 0 <= i < |rest| && rest[i].0 == k;
      assert ([d[0]] + rest)[i + 1].0 == k;
      [d[0]] + rest
  }

  /** Python's `d[k]` on a key the dict has. */
  function Get<K(==), V>(d: seq<(K, V)>, k: K): V
    requires HasKey(d, k)
  {
    if d[0].0 == k then d[0].1
    else
      assert HasKey(d[1..], k) by {
        var i :| 0 <= i < |d| && d[i].0 == k;
        assert d[1..][i - 1].0 == k;
      }
      Get(d[1..], k)
  }

  /** Reading a key back after assigning it gives the assigned value. */
  lemma {:induction false} GetPut<K, V>(d: seq<(K, V)>, k: K, v: V)
    ensures Get(Put(d, k, v), k) == v
  {
    if d != [] && d[0].0 != k {
      GetPut(d[1..], k, v);
    }
  }

  /** Assigning one key leaves every other key present with its value. */
  lemma {:induction false} GetPutOther<K, V>(d: seq<(K, V)>, k: K, v: V, k': K)
    requires HasKey(d, k') && k' != k
    ensures HasKey(Put(d, k, v), k') && Get(Put(d, k, v), k') == Get(d, k')
  {
    var r := Put(d, k, v);
    var i :| 0 <= i < |d| && d[i].0 == k';
    assert r[i] == d[i];
    if d[0].0 == k {
      assert r[1..] == d[1..];
    } else if d[0].0 != k' {
      assert HasKey(d[1..], k') by {
        assert d[1..][i - 1].0 == k';
      }
      GetPutOther(d[1..], k, v, k');
      assert r[1..] == Put(d[1..], k, v);
    }
  }

  /** In a dict whose last entry is the only one for `k`, reading and
      assigning `k` work on that last entry. */
  lemma {:induction false} LastEntry<K, V>(d: seq<(K, V)>, k: K, v: V, v': V)
    requires !HasKey(d, k)
    ensures HasKey(d + [(k, v)], k) && Get(d + [(k, v)], k) == v
    ensures Put(d + [(k, v)], k, v') == d + [(k, v')]
  {
    assert (d + [(k, v)])[|d|].0 == k;
    if d != [] {
      assert forall i :: 0 <= i < |d[1..]| ==> d[1..][i].0 != k by {
        forall i | 0 <= i < |d[1..]| ensures d[1..][i].0 != k {
          assert d[1..][i] == d[i + 1];
        }
      }
      LastEntry(d[1..], k, v, v');
      assert (d + [(k, v)])[1..] == d[1..] + [(k, v)];
      assert d[0].0 != k;
    }
  }

  /** The dict built by assigning the pairs of `ps` one after another,
      starting from the empty dict `{}`. */
  function FromPairs<K(==), V>(ps: seq<(K, V)>): seq<(K, V)>
  {
    if ps == [] then [] else Put(FromPairs(ps[..|ps| - 1]), ps[|ps| - 1].0, ps[|ps| - 1].1)
  }

  /** With distinct keys no assignment overwrites another, so the dict
      holds every pair, in assignment order. */
  lemma {:induction false} FromDistinctPairs<K, V>(ps: seq<(K, V)>)
    requires DistinctKeys(ps)
    ensures FromPairs(ps) == ps
  {
    if ps != [] {
      var init := ps[..|ps| - 1];
      var last := ps[|ps| - 1];
      DistinctInit(ps);
      FromDistinctPairs(init);
      assert FromPairs(ps) == Put(init, last.0, last.1);
      assert init + [last] == ps;
    }
  }

  /** Dropping the last entry keeps the keys distinct, and the dropped key
      is not among the rest. */
  lemma {:induction false} DistinctInit<K, V>(ps: seq<(K, V)>)
    requires DistinctKeys(ps) && ps != []
    ensures DistinctKeys(ps[..|ps| - 1])
    ensures !HasKey(ps[..|ps| - 1], ps[|ps| - 1].0)
  {
    var init := ps[..|ps| - 1];
    assert forall i :: 0 <= i < |init| ==> init[i] == ps[i];
  }

  lemma {:induction false} MulMonotone(a: int, b: int, c: int)
    requires 0 <= a <= b && 0 <= c
    ensures 0 <= a * c <= b * c
  {
    assert b * c == a * c + (b - a) * c;
  }
}

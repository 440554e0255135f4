/**
 * The order in which the read-back visits the log files:
 * sorted(LOG_DIR.glob("*.jsonl"), reverse=True) in
 * app/api/v1/endpoints/error_logs.py, line 85. Paths in one directory compare
 * by their names, and Python compares strings code point by code point, a
 * proper prefix sorting first.
 */
module FileOrder {

  /** a sorts strictly before b in Python's string order; a proper prefix sorts first. */
  predicate Below(a: string, b: string)
    ensures |a| < |b| && a == b[..|a|] ==> Below(a, b)
  {
    if b == [] then false
    else if a == [] then true
    else if a[0] != b[0] then a[0] < b[0]
    else
      assert |a| < |b| && a == b[..|a|] ==> a[1..] == b[1..][..|a| - 1];
      Below(a[1..], b[1..])
  }

  lemma {:induction false} BelowIrreflexive(a: string)
    ensures !Below(a, a)
  {
    if a != [] {
      BelowIrreflexive(a[1..]);
    }
  }

  /** No two names sort before each other. */
  lemma {:induction false} BelowAsymmetric(a: string, b: string)
    ensures Below(a, b) ==> !Below(b, a)
  {
    if a != [] && b != [] && a[0] == b[0] {
      BelowAsymmetric(a[1..], b[1..]);
    }
  }

  lemma {:induction false} BelowTransitive(a: string, b: string, c: string)
    requires Below(a, b) && Below(b, c)
    ensures Below(a, c)
  {
    if a != [] && a[0] == b[0] && b[0] == c[0] {
      BelowTransitive(a[1..], b[1..], c[1..]);
    }
  }

  /** Distinct names are always ordered one way or the other. */
  lemma {:induction false} BelowTotal(a: string, b: string)
    requires a != b
    ensures Below(a, b) || Below(b, a)
  {
    if a != [] && b != [] && a[0] == b[0] {
      assert a == [a[0]] + a[1..] && b == [b[0]] + b[1..];
      BelowTotal(a[1..], b[1..]);
    }
  }

  /** Names that agree up to position k and differ there are ordered by that character. */
  lemma {:induction false} BelowAtFirstDifference(a: string, b: string, k: nat)
    requires k < |a| && k < |b| && a[..k] == b[..k] && a[k] < b[k]
    ensures Below(a, b)
  {
    if k > 0 {
      assert a[0] == a[..k][0] && b[0] == b[..k][0];
      assert a[1..][..k - 1] == a[..k][1..] && b[1..][..k - 1] == b[..k][1..];
      BelowAtFirstDifference(a[1..], b[1..], k - 1);
    }
  }

  /** Strictly decreasing in Python's string order. */
  predicate Descending(s: seq<string>) {
    forall i, j :: 0 <= i < j < |s| ==> Below(s[j], s[i])
  }

  predicate Distinct(s: seq<string>) {
    forall i, j :: 0 <= i < j < |s| ==> s[i] != s[j]
  }

  /** Places x among the names of a descending sequence. */
  function Insert(x: string, s: seq<string>): (r: seq<string>)
    ensures multiset(r) == multiset(s) + multiset{x}
  {
    if s == [] then [x]
    else if Below(s[0], x) then [x] + s
    else
      assert s == [s[0]] + s[1..];
      [s[0]] + Insert(x, s[1..])
  }

  /** sorted(names, reverse=True) over names that are pairwise different. */
  function SortDescending(names: seq<string>): (r: seq<string>)
    ensures multiset(r) == multiset(names)
  {
    if names == [] then []
    else
      assert names == [names[0]] + names[1..];
      Insert(names[0], SortDescending(names[1..]))
  }

  lemma {:induction false} InsertDescending(x: string, s: seq<string>)
    requires Descending(s) && x !in s
    ensures Descending(Insert(x, s))
  {
    if s != [] {
      if Below(s[0], x) {
        forall j | 0 < j < |s| ensures Below(s[j], x) {
          BelowTransitive(s[j], s[0], x);
        }
      } else {
        BelowTotal(s[0], x);
        var t := Insert(x, s[1..]);
        InsertDescending(x, s[1..]);
        forall k | 0 <= k < |t| ensures Below(t[k], s[0]) {
          assert t[k] in multiset(t);
        }
      }
    }
  }

  /** What sorted(..., reverse=True) promises: the same names, strictly descending. */
  lemma {:induction false} SortDescendingSorted(names: seq<string>)
    requires Distinct(names)
    ensures Descending(SortDescending(names))
  {
    if names != [] {
      var rest := names[1..];
      SortDescendingSorted(rest);
      assert names[0] !in multiset(rest);
      InsertDescending(names[0], SortDescending(rest));
    }
  }

  /** The first name of a descending sequence is its largest. */
  lemma HeadIsLargest(s: seq<string>)
    requires Descending(s) && s != []
    ensures forall z :: z in s ==> z == s[0] || Below(z, s[0])
    ensures s[0] !in s[1..]
  {
    BelowIrreflexive(s[0]);
  }

  /** Only one descending sequence holds a given set of names. */
  lemma {:induction false} DescendingUnique(a: seq<string>, b: seq<string>)
    requires Descending(a) && Descending(b)
    requires forall z :: z in a <==> z in b
    ensures a == b
  {
    if a != [] {
      assert a[0] in a;
    }
    if b != [] {
      assert b[0] in b;
    }
    if a != [] && b != [] {
      HeadIsLargest(a);
      HeadIsLargest(b);
      BelowAsymmetric(a[0], b[0]);
      assert a[0] == b[0];
      forall z ensures z in a[1..] <==> z in b[1..] {
        assert z in a[1..] ==> z in a;
        assert z in b[1..] ==> z in b;
      }
      assert a == [a[0]] + a[1..] && b == [b[0]] + b[1..];
      DescendingUnique(a[1..], b[1..]);
    }
  }

  /** The names of a set, in some order, each once. */
  ghost function SetToSeq(names: set<string>): (r: seq<string>)
    ensures Distinct(r) && |r| == |names|
    ensures forall z :: z in r <==> z in names
  {
    if names == {} then []
    else
      var x :| x in names;
      [x] + SetToSeq(names - {x})
  }

  /** The file names, newest first. */
  ghost function NewestFirst(names: set<string>): (r: seq<string>)
    ensures Descending(r)
    ensures forall z :: z in r <==> z in names
  {
    SortDescendingSorted(SetToSeq(names));
    var r := SortDescending(SetToSeq(names));
    assert forall z :: z in r <==> z in multiset(r);
    r
  }
}

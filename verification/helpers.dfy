/**
 * The pure helpers of the indexer: the two-way difference of script sets,
 * the prefab/scene file test, and the script-name extraction of one file.
 *
 * A JavaScript `Set` iterates in insertion order; where that order matters
 * (the inputs and outputs of the diff, the scripts read from a file) it is
 * modelled as a sequence without duplicates.
 */
module Helpers {

  datatype Option<+T> = None | Some(value: T)

  /** The elements of a sequence, as a set. */
  function Elems<T>(s: seq<T>): set<T>
  {
    set x | x in s
  }

  /** No element occurs twice: the shape of a `Set` spread into an array. */
  predicate NoDup<T(==)>(s: seq<T>)
  {
    forall i, j :: 0 <= i < j < |s| ==> s[i] != s[j]
  }

  // ---------------------------------------------------------------------
  // diffWithTwoSets
  // ---------------------------------------------------------------------

  /** `[...s].filter((x) => !other.has(x))`: the elements of `s` outside `other`, in order. */
  function NotIn<T(==,!new)>(s: seq<T>, other: seq<T>): (r: seq<T>)
    ensures forall x :: x in r <==> x in s && x !in other
    ensures |r| <= |s|
    ensures NoDup(s) ==> NoDup(r)
  {
    if s == [] then []
    else
      var rest := NotIn(s[1..], other);
      if s[0] in other then rest else [s[0]] + rest
  }

  /** Filtering distributes over concatenation, so it keeps the order of its input. */
  lemma {:induction false} NotInConcat<T(!new)>(a: seq<T>, b: seq<T>, other: seq<T>)
    ensures NotIn(a + b, other) == NotIn(a, other) + NotIn(b, other)
  {
    if a == [] {
      assert a + b == b;
    } else {
      assert (a + b)[1..] == a[1..] + b;
      NotInConcat(a[1..], b, other);
    }
  }

  /** Filtering a single element keeps it exactly when it is outside `other`. */
  lemma NotInSingleton<T(!new)>(x: T, other: seq<T>)
    ensures NotIn([x], other) == if x in other then [] else [x]
  {
    assert [x][1..] == [];
  }

  /** Filtering by a sequence that holds every element leaves nothing. */
  lemma {:induction false} NotInCovered<T(!new)>(s: seq<T>, other: seq<T>)
    requires forall x :: x in s ==> x in other
    ensures NotIn(s, other) == []
  {
    if s != [] {
      NotInCovered(s[1..], other);
    }
  }

  /** The result of `diffWithTwoSets`. */
  datatype Delta<T> = Delta(deleted: seq<T>, added: seq<T>)

  /**
   * `deleted` lists what `left` has and `right` lacks, `added` what `right`
   * has and `left` lacks; each keeps the iteration order of its source.
   */
  function DiffWithTwoSets<T(==,!new)>(left: seq<T>, right: seq<T>): (d: Delta<T>)
    ensures forall x :: x in d.deleted <==> x in left && x !in right
    ensures forall x :: x in d.added <==> x in right && x !in left
    ensures forall x :: x !in d.deleted || x !in d.added
    ensures NoDup(left) ==> NoDup(d.deleted)
    ensures NoDup(right) ==> NoDup(d.added)
  {
    Delta(NotIn(left, right), NotIn(right, left))
  }

  /** Comparing a set with itself yields two empty lists. */
  lemma DiffSelf<T(!new)>(s: seq<T>)
    ensures DiffWithTwoSets(s, s) == Delta([], [])
  {
    NotInCovered(s, s);
  }

  /** Applying the diff to `left` gives `right`: (left - deleted) + added == right. */
  lemma DiffReconstructs<T(!new)>(left: seq<T>, right: seq<T>)
    ensures var d := DiffWithTwoSets(left, right);
      (Elems(left) - Elems(d.deleted)) + Elems(d.added) == Elems(right)
  {
  }

  /** The scenario {"A","B"} against {"B","C"}. */
  lemma DiffExample()
    ensures DiffWithTwoSets(["A", "B"], ["B", "C"]) == Delta(["A"], ["C"])
  {
    var d := DiffWithTwoSets(["A", "B"], ["B", "C"]);
    assert ["A", "B"][1..] == ["B"];
    assert ["B", "C"][1..] == ["C"];
    assert d.deleted == NotIn(["A", "B"], ["B", "C"]) == ["A"];
    assert d.added == NotIn(["B", "C"], ["A", "B"]) == ["C"];
  }

  // ---------------------------------------------------------------------
  // uriIsPrefabFile
  // ---------------------------------------------------------------------

  /** The file extensions of a prefab and of a scene. */
  const PrefabExt: string := ".prefab"
  const SceneExt: string := ".unity"

  /** Index of the last `c` in `s`, or -1 when there is none. */
  function LastIndexOf(s: string, c: char): (k: int)
    ensures -1 <= k < |s|
    ensures k >= 0 ==> s[k] == c
    ensures forall j :: k < j < |s| ==> s[j] != c
  {
    if s == [] then -1
    else if s[|s| - 1] == c then |s| - 1
    else LastIndexOf(s[..|s| - 1], c)
  }

  /** The path without its trailing separators. */
  function TrimTrailingSlashes(p: string): (r: string)
    ensures |r| <= |p| && r == p[..|r|]
    ensures r == [] || r[|r| - 1] != '/'
    ensures forall j :: |r| <= j < |p| ==> p[j] == '/'
  {
    if p != [] && p[|p| - 1] == '/' then TrimTrailingSlashes(p[..|p| - 1]) else p
  }

  /** The last segment of a POSIX path, as Node's path module takes it. */
  function BaseName(p: string): (b: string)
    ensures '/' !in b
    ensures var t := TrimTrailingSlashes(p);
      |b| <= |t| && b == t[|t| - |b|..] && (|b| < |t| ==> t[|t| - |b| - 1] == '/')
  {
    var t := TrimTrailingSlashes(p);
    t[LastIndexOf(t, '/') + 1..]
  }

  /**
   * The extension of one path segment, as Node's POSIX `path.extname` takes
   * it: from the last dot to the end, except that a segment whose only dot
   * is its first character (a dot file), a segment without a dot, and the
   * segment ".." have no extension.
   */
  function SegmentExt(b: string): (e: string)
    ensures e == "" || (e[0] == '.' && '.' !in e[1..] && EndsWithExt(b, e))
  {
    var k := LastIndexOf(b, '.');
    if k <= 0 || b == ".." then "" else b[k..]
  }

  /** Segment `b` ends with `e` and has something before it. */
  predicate EndsWithExt(b: string, e: string)
  {
    |b| > |e| && b[|b| - |e|..] == e
  }

  /** For an extension that is one dot followed by dot-free characters, `SegmentExt` finds exactly it. */
  lemma SegmentExtIs(b: string, e: string)
    requires |e| >= 1 && e[0] == '.' && '.' !in e[1..] && e != "."
    ensures SegmentExt(b) == e <==> EndsWithExt(b, e)
  {
    var k := LastIndexOf(b, '.');
    if EndsWithExt(b, e) {
      var d := |b| - |e|;
      assert b[d] == e[0] == '.';
      forall j | d < j < |b|
        ensures b[j] != '.'
      {
        assert b[j] == e[j - d] == e[1..][j - d - 1];
      }
      assert k == d;
      assert |b| > 2;
    }
  }

  /** The last segment of `p` ends with extension `e` and has something before it. */
  predicate HasExt(p: string, e: string)
  {
    EndsWithExt(BaseName(p), e)
  }

  /** Node's POSIX `path.extname`: the extension of the last segment. */
  function ExtName(p: string): (e: string)
    ensures e == "" || (e[0] == '.' && '.' !in e[1..] && HasExt(p, e))
  {
    SegmentExt(BaseName(p))
  }

  /**
   * `uriIsPrefabFile`: the extension is exactly one of the two,
   * case-sensitively; that is, the last segment ends in `.prefab` or `.unity`
   * after a non-empty name.
   */
  function UriIsPrefabFile(p: string): (r: bool)
    ensures r <==> HasExt(p, PrefabExt) || HasExt(p, SceneExt)
  {
    PrefabSegment(BaseName(p));
    var e := ExtName(p);
    e == PrefabExt || e == SceneExt
  }

  /** The extension test on one segment. */
  lemma PrefabSegment(b: string)
    ensures SegmentExt(b) == PrefabExt || SegmentExt(b) == SceneExt
        <==> EndsWithExt(b, PrefabExt) || EndsWithExt(b, SceneExt)
  {
    assert PrefabExt[1..] == "prefab";
    assert SceneExt[1..] == "unity";
    SegmentExtIs(b, PrefabExt);
    SegmentExtIs(b, SceneExt);
  }

  // ---------------------------------------------------------------------
  // readAllScriptsFromDocument
  // ---------------------------------------------------------------------

  /** The distinct elements of `s` in order of first occurrence: what repeated `Set.add` builds. */
  function Dedup<T(==)>(s: seq<T>): (r: seq<T>)
    ensures NoDup(r)
    ensures Elems(r) == Elems(s)
  {
    if s == [] then []
    else
      var d := Dedup(s[..|s| - 1]);
      var x := s[|s| - 1];
      assert Elems(s) == Elems(s[..|s| - 1]) + {x} by {
        assert s == s[..|s| - 1] + [x];
      }
      if x in d then d else d + [x]
  }

  /**
   * Adding more elements never reorders what is already there: the distinct
   * elements of `a` come first, in the order they first occur.
   */
  lemma {:induction false} DedupAppends<T>(a: seq<T>, b: seq<T>)
    ensures Dedup(a) <= Dedup(a + b)
  {
    if b != [] {
      var c := a + b[..|b| - 1];
      DedupAppends(a, b[..|b| - 1]);
      assert (a + b)[..|a + b| - 1] == c;
    } else {
      assert a + b == a;
    }
  }

  /**
   * The scripts a container file names: `data` is the file's text, or None
   * when reading it failed; `matchExportNames` gives the token captured by
   * each match of the configured export-name pattern. A failed read and an
   * empty file both yield no scripts.
   */
  function ScriptsOf(data: Option<string>, matchExportNames: string -> seq<string>): (r: seq<string>)
    ensures NoDup(r)
    ensures data == None || data == Some("") ==> r == []
    ensures data.Some? && data.value != "" ==> Elems(r) == Elems(matchExportNames(data.value))
  {
    if data.Some? && data.value != "" then Dedup(matchExportNames(data.value)) else []
  }

  /** `readAllScriptsFromDocument`, after the read: fills the script set match by match. */
  method ReadAllScriptsFromDocument(data: Option<string>, matchExportNames: string -> seq<string>)
    returns (scriptSet: seq<string>)
    ensures scriptSet == ScriptsOf(data, matchExportNames)
  {
    scriptSet := [];
    if data.Some? && data.value != "" {
      var matchers := matchExportNames(data.value);
      for i := 0 to |matchers|
        invariant scriptSet == Dedup(matchers[..i])
      {
        assert matchers[..i + 1][..i] == matchers[..i];
        if matchers[i] !in scriptSet {
          scriptSet := scriptSet + [matchers[i]];
        }
      }
      assert matchers[..|matchers|] == matchers;
    }
  }
}

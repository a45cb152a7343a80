/**
 * The snapshot of tracked source files: paths that would collide once names are compared by case
 * folding and Unicode normalization are refused, and what is accepted can be copied without a
 * collision. The normalization of one name is a parameter.
 */
module TrackedPaths {
  /** The components of a tracked path, as spelled. */
  type Parts = seq<string>

  /** `_normalized_parts`. */
  function Normalized(norm: string -> string, parts: Parts): Parts {
    seq(|parts|, k requires 0 <= k < |parts| => norm(parts[k]))
  }

  /** Two tracked paths can live in one directory tree whose names are compared normalized. */
  predicate Compatible(norm: string -> string, p: Parts, q: Parts) {
    var np, nq := Normalized(norm, p), Normalized(norm, q);
    && !(np <= nq) && !(nq <= np)
    && forall n :: 1 <= n <= |p| && n <= |q| && np[..n] == nq[..n] ==> p[..n] == q[..n]
  }

  /** The path neither is nor passes through the ownership marker. */
  predicate AvoidsMarker(norm: string -> string, marker: Parts, p: Parts) {
    !(Normalized(norm, marker) <= Normalized(norm, p))
  }

  /** What the validation promises of a list of paths; it does not depend on their order. */
  predicate Acceptable(norm: string -> string, marker: Parts, paths: seq<Parts>) {
    && (forall a :: 0 <= a < |paths| ==> AvoidsMarker(norm, marker, paths[a]))
    && (forall a, b :: 0 <= a < b < |paths| ==> Compatible(norm, paths[a], paths[b]))
  }

  /** The first n names of the two paths are the same once normalized, one by one. */
  predicate Agree(norm: string -> string, p: Parts, q: Parts, n: nat) {
    n <= |p| && n <= |q| && forall k :: 0 <= k < n ==> norm(p[k]) == norm(q[k])
  }

  lemma AgreeMeans(norm: string -> string, p: Parts, q: Parts, n: nat)
    requires n <= |p| && n <= |q|
    ensures Agree(norm, p, q, n) <==> Normalized(norm, p)[..n] == Normalized(norm, q)[..n]
  {
    var np, nq := Normalized(norm, p), Normalized(norm, q);
    if np[..n] == nq[..n] {
      forall k | 0 <= k < n ensures norm(p[k]) == norm(q[k]) {
        assert np[..n][k] == nq[..n][k];
      }
    }
  }

  /**
   * Two paths are compatible when neither agrees with the other to its end, name by name, and as far as they
   * agree they are spelled alike.
   */
  lemma CompatibleMeans(norm: string -> string, p: Parts, q: Parts)
    ensures Compatible(norm, p, q) <==>
              && !Agree(norm, p, q, |p|) && !Agree(norm, p, q, |q|)
              && forall n: nat, k: nat :: Agree(norm, p, q, n) && k < n ==> p[k] == q[k]
  {
    var np, nq := Normalized(norm, p), Normalized(norm, q);
    forall n: nat | n <= |p| && n <= |q| ensures Agree(norm, p, q, n) <==> np[..n] == nq[..n] {
      AgreeMeans(norm, p, q, n);
    }
    assert np[..|p|] == np && nq[..|q|] == nq;
    if Compatible(norm, p, q) {
      forall n: nat, k: nat | Agree(norm, p, q, n) && k < n ensures p[k] == q[k] {
        assert p[..n][k] == q[..n][k];
      }
    }
    if forall n: nat, k: nat :: Agree(norm, p, q, n) && k < n ==> p[k] == q[k] {
      forall n: nat | 1 <= n <= |p| && n <= |q| && np[..n] == nq[..n] ensures p[..n] == q[..n] {
        assert Agree(norm, p, q, n);
      }
    }
  }

  lemma AvoidsMarkerMeans(norm: string -> string, marker: Parts, p: Parts)
    ensures AvoidsMarker(norm, marker, p) <==> !Agree(norm, marker, p, |marker|)
  {
    if |marker| <= |p| {
      AgreeMeans(norm, marker, p, |marker|);
      assert Normalized(norm, marker)[..|marker|] == Normalized(norm, marker);
    }
  }

  /** Of two paths whose names agree one by one, however they are spelled, at most one is ever accepted. */
  lemma AgreeingPathsClash(norm: string -> string, marker: Parts, paths: seq<Parts>, a: nat, b: nat)
    requires Acceptable(norm, marker, paths) && a < |paths| && b < |paths| && a != b
    ensures !(|paths[a]| == |paths[b]| && Agree(norm, paths[a], paths[b], |paths[a]|))
    ensures !Agree(norm, marker, paths[a], |marker|)
  {
    AvoidsMarkerMeans(norm, marker, paths[a]);
    if a < b {
      CompatibleMeans(norm, paths[a], paths[b]);
    } else {
      CompatibleEitherWay(norm, paths[b], paths[a]);
      CompatibleMeans(norm, paths[a], paths[b]);
    }
  }

  lemma CompatibleEitherWay(norm: string -> string, p: Parts, q: Parts)
    requires Compatible(norm, p, q)
    ensures Compatible(norm, q, p) && p != q
  {
  }

  /** A list that has one entry at two places counts it at least twice. */
  lemma CountedTwice(paths: seq<Parts>, i: nat, j: nat)
    requires i < j < |paths| && paths[i] == paths[j]
    ensures multiset(paths)[paths[i]] >= 2
  {
    var left, right := paths[..j], paths[j..];
    assert paths == left + right;
    assert left[i] in left && right[0] in right;
  }

  /** A list that counts one entry at least twice has it at two places. */
  lemma FoundTwice(paths: seq<Parts>, p: Parts) returns (i: nat, j: nat)
    requires multiset(paths)[p] >= 2
    ensures i < j < |paths| && paths[i] == paths[j] == p
  {
    assert p in multiset(paths);
    i :| 0 <= i < |paths| && paths[i] == p;
    var left, right := paths[..i], paths[i + 1..];
    assert paths == left + [p] + right;
    assert p in multiset(left) + multiset(right);
    if p in left {
      j :| 0 <= j < |left| && left[j] == p;
      i, j := j, i;
    } else {
      var k :| 0 <= k < |right| && right[k] == p;
      j := i + 1 + k;
    }
  }

  /** The verdict does not depend on the order of the entries. */
  lemma OrderDoesNotMatter(norm: string -> string, marker: Parts, paths: seq<Parts>, other: seq<Parts>)
    requires multiset(paths) == multiset(other) && Acceptable(norm, marker, paths)
    ensures Acceptable(norm, marker, other)
  {
    forall a | 0 <= a < |other| ensures AvoidsMarker(norm, marker, other[a]) {
      assert other[a] in multiset(paths);
    }
    forall a, b | 0 <= a < b < |other| ensures Compatible(norm, other[a], other[b]) {
      if other[a] == other[b] {
        CountedTwice(other, a, b);
        var i, j := FoundTwice(paths, other[a]);
        CompatibleEitherWay(norm, paths[i], paths[j]);
        assert false;
      } else {
        assert other[a] in multiset(paths) && other[b] in multiset(paths);
        var i :| 0 <= i < |paths| && paths[i] == other[a];
        var j :| 0 <= j < |paths| && paths[j] == other[b];
        if i < j {
          assert Compatible(norm, paths[i], paths[j]);
        } else {
          CompatibleEitherWay(norm, paths[j], paths[i]);
        }
      }
    }
  }

  // The tables of the validation, as functions of the paths recorded in them.

  /** The normalized prefixes of a path of 1 to n components. */
  function PrefixKeys(norm: string -> string, parts: Parts, n: nat): set<Parts>
    requires n <= |parts|
  {
    if n == 0 then {} else PrefixKeys(norm, parts, n - 1) + {Normalized(norm, parts)[..n]}
  }

  function WithSpellings(norm: string -> string, spellings: map<Parts, Parts>, parts: Parts, n: nat): map<Parts, Parts>
    requires n <= |parts|
  {
    if n == 0 then spellings
    else WithSpellings(norm, spellings, parts, n - 1)[Normalized(norm, parts)[..n] := parts[..n]]
  }

  datatype Tables = Tables(files: set<Parts>, directories: set<Parts>, spellings: map<Parts, Parts>)

  /** The tables once a path has been recorded. */
  function Recorded(norm: string -> string, t: Tables, parts: Parts): Tables
    requires parts != []
  {
    Tables(t.files + {Normalized(norm, parts)},
           t.directories + PrefixKeys(norm, parts, |parts| - 1),
           WithSpellings(norm, t.spellings, parts, |parts|))
  }

  function TablesOf(norm: string -> string, marker: Parts, paths: seq<Parts>): Tables
    requires forall a :: 0 <= a < |paths| ==> paths[a] != []
  {
    if paths == [] then Tables({Normalized(norm, marker)}, {}, map[])
    else Recorded(norm, TablesOf(norm, marker, paths[..|paths| - 1]), paths[|paths| - 1])
  }

  /** Prefix n of a path is refused: spelled differently before, below a file, or on top of a file or directory. */
  predicate Clashes(norm: string -> string, t: Tables, parts: Parts, n: nat)
    requires 1 <= n <= |parts|
  {
    var key := Normalized(norm, parts)[..n];
    || (key in t.spellings && t.spellings[key] != parts[..n])
    || key in t.files
    || (n == |parts| && key in t.directories)
  }

  predicate Admits(norm: string -> string, t: Tables, parts: Parts) {
    forall n :: 1 <= n <= |parts| ==> !Clashes(norm, t, parts, n)
  }

  lemma {:induction false} PrefixKeysAre(norm: string -> string, parts: Parts, n: nat, key: Parts)
    requires n <= |parts|
    ensures key in PrefixKeys(norm, parts, n) <==> 1 <= |key| <= n && key == Normalized(norm, parts)[..|key|]
  {
    if n > 0 {
      PrefixKeysAre(norm, parts, n - 1, key);
    }
  }

  lemma {:induction false} WithSpellingsAre(norm: string -> string, spellings: map<Parts, Parts>, parts: Parts, n: nat, key: Parts)
    requires n <= |parts|
    ensures var own := 1 <= |key| <= n && key == Normalized(norm, parts)[..|key|];
            var after := WithSpellings(norm, spellings, parts, n);
            && (key in after <==> own || key in spellings)
            && (own ==> after[key] == parts[..|key|])
            && (!own && key in spellings ==> after[key] == spellings[key])
  {
    if n > 0 {
      WithSpellingsAre(norm, spellings, parts, n - 1, key);
    }
  }

  /** The key is the normalized form of the first |key| components of the path. */
  predicate IsKeyOf(norm: string -> string, parts: Parts, key: Parts) {
    1 <= |key| <= |parts| && Normalized(norm, parts)[..|key|] == key
  }

  /** What the tables say about one key, told from the paths. */
  ghost predicate TablesMean(norm: string -> string, marker: Parts, paths: seq<Parts>, t: Tables, key: Parts) {
    && (key in t.files <==> key == Normalized(norm, marker)
                            || (exists a :: 0 <= a < |paths| && Normalized(norm, paths[a]) == key))
    && (key in t.directories <==> exists a :: 0 <= a < |paths| && IsKeyOf(norm, paths[a], key) && |key| < |paths[a]|)
    && (key in t.spellings <==> exists a :: 0 <= a < |paths| && IsKeyOf(norm, paths[a], key))
    && (forall a :: 0 <= a < |paths| && IsKeyOf(norm, paths[a], key) ==>
          key in t.spellings && t.spellings[key] == paths[a][..|key|])
  }

  lemma AcceptablePrefix(norm: string -> string, marker: Parts, paths: seq<Parts>, n: nat)
    requires n < |paths| && Acceptable(norm, marker, paths)
    ensures Acceptable(norm, marker, paths[..n]) && AvoidsMarker(norm, marker, paths[n])
    ensures forall a :: 0 <= a < |paths[..n]| ==> Compatible(norm, paths[..n][a], paths[n])
  {
    assert forall a :: 0 <= a < n ==> paths[..n][a] == paths[a];
  }

  lemma {:induction false} TablesOfMean(norm: string -> string, marker: Parts, paths: seq<Parts>, key: Parts)
    requires forall a :: 0 <= a < |paths| ==> paths[a] != []
    requires Acceptable(norm, marker, paths)
    ensures TablesMean(norm, marker, paths, TablesOf(norm, marker, paths), key)
    decreases |paths|
  {
    if paths == [] {
      NoPaths(norm, marker, paths, TablesOf(norm, marker, paths), key);
    } else {
      var shorter, last := paths[..|paths| - 1], paths[|paths| - 1];
      AcceptablePrefix(norm, marker, paths, |paths| - 1);
      TablesOfMean(norm, marker, shorter, key);
      OneMorePath(norm, marker, shorter, last, paths, TablesOf(norm, marker, shorter), key);
      assert TablesOf(norm, marker, paths) == Recorded(norm, TablesOf(norm, marker, shorter), last);
    }
  }

  lemma NoPaths(norm: string -> string, marker: Parts, paths: seq<Parts>, t: Tables, key: Parts)
    requires paths == [] && t == Tables({Normalized(norm, marker)}, {}, map[])
    ensures TablesMean(norm, marker, paths, t, key)
  {
  }

  lemma OneMorePath(norm: string -> string, marker: Parts, paths: seq<Parts>, last: Parts, all: seq<Parts>, t: Tables, key: Parts)
    requires last != [] && TablesMean(norm, marker, paths, t, key)
    requires forall a :: 0 <= a < |paths| ==> Compatible(norm, paths[a], last)
    requires |all| == |paths| + 1 && all[..|paths|] == paths && all[|paths|] == last
    ensures TablesMean(norm, marker, all, Recorded(norm, t, last), key)
  {
    RecordedMean(norm, marker, paths, last, t, key);
    assert all == paths + [last];
  }

  lemma RecordedMean(norm: string -> string, marker: Parts, paths: seq<Parts>, last: Parts, t: Tables, key: Parts)
    requires last != [] && TablesMean(norm, marker, paths, t, key)
    requires forall a :: 0 <= a < |paths| ==> Compatible(norm, paths[a], last)
    ensures TablesMean(norm, marker, paths + [last], Recorded(norm, t, last), key)
  {
    var all := paths + [last];
    PrefixKeysAre(norm, last, |last| - 1, key);
    WithSpellingsAre(norm, t.spellings, last, |last|, key);
    assert all[|paths|] == last;
    assert forall a :: 0 <= a < |paths| ==> all[a] == paths[a];
    forall a | 0 <= a < |paths| && IsKeyOf(norm, paths[a], key) && IsKeyOf(norm, last, key)
      ensures paths[a][..|key|] == last[..|key|]
    {
      assert Compatible(norm, paths[a], last);
    }
  }

  lemma IncompatibleClashes(norm: string -> string, marker: Parts, paths: seq<Parts>, last: Parts, a: nat)
    requires last != [] && forall b :: 0 <= b < |paths| ==> paths[b] != []
    requires Acceptable(norm, marker, paths) && a < |paths|
    requires !Compatible(norm, paths[a], last)
    ensures !Admits(norm, TablesOf(norm, marker, paths), last)
  {
    var t, key, other := TablesOf(norm, marker, paths), Normalized(norm, last), Normalized(norm, paths[a]);
    if other <= key {
      assert key[..|other|] == other;
      TablesOfMean(norm, marker, paths, other);
      assert Clashes(norm, t, last, |other|);
    } else if key <= other {
      assert other[..|key|] == key && key[..|key|] == key;
      TablesOfMean(norm, marker, paths, key);
      assert IsKeyOf(norm, paths[a], key);
      assert Clashes(norm, t, last, |last|);
    } else {
      var n :| 1 <= n <= |paths[a]| && n <= |last| && other[..n] == key[..n] && paths[a][..n] != last[..n];
      TablesOfMean(norm, marker, paths, key[..n]);
      assert IsKeyOf(norm, paths[a], key[..n]);
      assert Clashes(norm, t, last, n);
    }
  }

  lemma ClashIsIncompatible(norm: string -> string, marker: Parts, paths: seq<Parts>, last: Parts, n: nat)
    requires last != [] && |marker| == 1 && forall a :: 0 <= a < |paths| ==> paths[a] != []
    requires Acceptable(norm, marker, paths)
    requires 1 <= n <= |last| && Clashes(norm, TablesOf(norm, marker, paths), last, n)
    ensures !AvoidsMarker(norm, marker, last) || exists a :: 0 <= a < |paths| && !Compatible(norm, paths[a], last)
  {
    var t, whole := TablesOf(norm, marker, paths), Normalized(norm, last);
    var key := whole[..n];
    TablesOfMean(norm, marker, paths, key);
    if key in t.files {
      if key != Normalized(norm, marker) {
        var a :| 0 <= a < |paths| && Normalized(norm, paths[a]) == key;
        assert Normalized(norm, paths[a]) <= whole;
        assert !Compatible(norm, paths[a], last);
      }
    } else if n == |last| && key in t.directories {
      assert key == whole;
      var a :| 0 <= a < |paths| && IsKeyOf(norm, paths[a], key) && |key| < |paths[a]|;
      assert whole <= Normalized(norm, paths[a]);
      assert !Compatible(norm, paths[a], last);
    } else {
      var a :| 0 <= a < |paths| && IsKeyOf(norm, paths[a], key);
      assert t.spellings[key] == paths[a][..|key|];
      assert Normalized(norm, paths[a])[..n] == whole[..n];
      assert !Compatible(norm, paths[a], last);
    }
  }

  /** On the tables of acceptable paths one more path is admitted exactly when it is compatible with them all. */
  lemma AdmitsExactly(norm: string -> string, marker: Parts, paths: seq<Parts>, last: Parts)
    requires last != [] && |marker| == 1 && forall a :: 0 <= a < |paths| ==> paths[a] != []
    requires Acceptable(norm, marker, paths)
    ensures Admits(norm, TablesOf(norm, marker, paths), last)
            <==> AvoidsMarker(norm, marker, last) && forall a :: 0 <= a < |paths| ==> Compatible(norm, paths[a], last)
  {
    var t, key := TablesOf(norm, marker, paths), Normalized(norm, last);
    if a :| 0 <= a < |paths| && !Compatible(norm, paths[a], last) {
      IncompatibleClashes(norm, marker, paths, last, a);
    } else if !AvoidsMarker(norm, marker, last) {
      assert key[..1] == Normalized(norm, marker);
      TablesOfMean(norm, marker, paths, key[..1]);
      assert Clashes(norm, t, last, 1);
    } else if n :| 1 <= n <= |last| && Clashes(norm, t, last, n) {
      ClashIsIncompatible(norm, marker, paths, last, n);
    }
  }

  // The loops.

  class PathTables {
    const norm: string -> string
    var files: set<Parts>
    var directories: set<Parts>
    var spellings: map<Parts, Parts>

    function Contents(): Tables
      reads this
    {
      Tables(files, directories, spellings)
    }

    constructor (norm: string -> string, marker: Parts)
      ensures this.norm == norm && Contents() == TablesOf(norm, marker, [])
    {
      this.norm := norm;
      files, directories, spellings := {Normalized(norm, marker)}, {}, map[];
    }

    /** The body of the outer loop: records each prefix of a path, or stops at the first clash. */
    method AddPath(parts: Parts) returns (ok: bool)
      requires parts != []
      modifies this
      ensures ok <==> Admits(norm, old(Contents()), parts)
      ensures ok ==> Contents() == Recorded(norm, old(Contents()), parts)
    {
      ghost var start := Contents();
      for n := 1 to |parts| + 1
        invariant forall m :: 1 <= m < n ==> !Clashes(norm, start, parts, m)
        invariant directories == start.directories + PrefixKeys(norm, parts, if n <= |parts| then n - 1 else |parts| - 1)
        invariant files == if n <= |parts| then start.files else start.files + {Normalized(norm, parts)}
        invariant spellings == WithSpellings(norm, start.spellings, parts, n - 1)
      {
        var key, spelling := Normalized(norm, parts)[..n], parts[..n];
        PrefixKeysAre(norm, parts, n - 1, key);
        WithSpellingsAre(norm, start.spellings, parts, n - 1, key);
        if key in spellings && spellings[key] != spelling { assert Clashes(norm, start, parts, n); return false; }
        spellings := spellings[key := spelling];
        if key in files { assert Clashes(norm, start, parts, n); return false; }
        if n < |parts| {
          directories := directories + {key};
        } else {
          if key in directories { assert Clashes(norm, start, parts, n); return false; }
          files := files + {key};
          assert key == Normalized(norm, parts);
        }
      }
      ok := true;
    }
  }

  /** `_validate_tracked_paths`: accepts exactly the acceptable lists. */
  method ValidateTrackedPaths(norm: string -> string, marker: Parts, paths: seq<Parts>) returns (ok: bool)
    requires |marker| == 1 && forall a :: 0 <= a < |paths| ==> paths[a] != []
    ensures ok <==> Acceptable(norm, marker, paths)
  {
    var tables := new PathTables(norm, marker);
    for i := 0 to |paths|
      invariant tables.norm == norm
      invariant Acceptable(norm, marker, paths[..i])
      invariant tables.Contents() == TablesOf(norm, marker, paths[..i])
    {
      AdmitsExactly(norm, marker, paths[..i], paths[i]);
      var added := tables.AddPath(paths[i]);
      if !added {
        NotAcceptable(norm, marker, paths, i);
        return false;
      }
      StillAcceptable(norm, marker, paths, i);
      assert paths[..i + 1][..i] == paths[..i];
    }
    assert paths[..|paths|] == paths;
    ok := true;
  }

  lemma StillAcceptable(norm: string -> string, marker: Parts, paths: seq<Parts>, i: nat)
    requires i < |paths| && Acceptable(norm, marker, paths[..i])
    requires AvoidsMarker(norm, marker, paths[i])
    requires forall a :: 0 <= a < |paths[..i]| ==> Compatible(norm, paths[..i][a], paths[i])
    ensures Acceptable(norm, marker, paths[..i + 1])
  {
    assert paths[..i + 1] == paths[..i] + [paths[i]];
  }

  lemma NotAcceptable(norm: string -> string, marker: Parts, paths: seq<Parts>, i: nat)
    requires i < |paths|
    requires !(AvoidsMarker(norm, marker, paths[i])
               && forall a :: 0 <= a < |paths[..i]| ==> Compatible(norm, paths[..i][a], paths[i]))
    ensures !Acceptable(norm, marker, paths)
  {
  }

  // Copying into a fresh directory whose names are compared normalized.

  datatype Node = Directory | File(spelling: Parts, content: nat)

  /** The first n directories above a file, created where they are missing. */
  function WithDirectories(tree: map<Parts, Node>, key: Parts, n: nat): map<Parts, Node>
    requires n <= |key|
  {
    if n == 0 then tree
    else
      var above := WithDirectories(tree, key, n - 1);
      if key[..n] in above then above else above[key[..n] := Directory]
  }

  function WithFile(norm: string -> string, tree: map<Parts, Node>, parts: Parts, content: nat): map<Parts, Node>
    requires parts != []
  {
    WithDirectories(tree, Normalized(norm, parts), |parts| - 1)[Normalized(norm, parts) := File(parts, content)]
  }

  /** A fresh directory with the ownership marker of a run and the files copied so far. */
  function TreeOf(norm: string -> string, marker: Parts, run: nat, paths: seq<Parts>, contents: seq<nat>): map<Parts, Node>
    requires |contents| == |paths| && forall a :: 0 <= a < |paths| ==> paths[a] != []
  {
    if paths == [] then map[[] := Directory, Normalized(norm, marker) := File(marker, run)]
    else
      var n := |paths| - 1;
      WithFile(norm, TreeOf(norm, marker, run, paths[..n], contents[..n]), paths[n], contents[n])
  }

  /** No directory above the file is taken by a file, and its own name is free. */
  predicate HasRoom(tree: map<Parts, Node>, key: Parts) {
    key !in tree && forall n :: 1 <= n < |key| && key[..n] in tree ==> tree[key[..n]] == Directory
  }

  lemma {:induction false} WithDirectoriesAre(tree: map<Parts, Node>, whole: Parts, n: nat, key: Parts)
    requires n <= |whole|
    ensures var after := WithDirectories(tree, whole, n);
            && (key in after <==> key in tree || (1 <= |key| <= n && key == whole[..|key|]))
            && (key in after ==> after[key] == if key in tree then tree[key] else Directory)
  {
    if n > 0 {
      WithDirectoriesAre(tree, whole, n - 1, key);
    }
  }

  /** What the tree says about one name: the marker, the given files as spelled, the directories above them, nothing else. */
  ghost predicate TreeMeans(norm: string -> string, marker: Parts, run: nat, paths: seq<Parts>, contents: seq<nat>,
                            tree: map<Parts, Node>, key: Parts)
    requires |contents| == |paths|
  {
    && (key in tree <==> key == [] || key == Normalized(norm, marker)
                         || exists a :: 0 <= a < |paths| && IsKeyOf(norm, paths[a], key))
    && (key == Normalized(norm, marker) ==> key in tree && tree[key] == File(marker, run))
    && (forall a :: 0 <= a < |paths| && Normalized(norm, paths[a]) == key ==>
          key in tree && tree[key] == File(paths[a], contents[a]))
    && (key in tree && tree[key] != Directory ==>
          key == Normalized(norm, marker) || exists a :: 0 <= a < |paths| && Normalized(norm, paths[a]) == key)
  }

  lemma {:induction false} TreeOfMeans(norm: string -> string, marker: Parts, run: nat, paths: seq<Parts>,
                                       contents: seq<nat>, key: Parts)
    requires |contents| == |paths| && marker != [] && forall a :: 0 <= a < |paths| ==> paths[a] != []
    requires Acceptable(norm, marker, paths)
    ensures TreeMeans(norm, marker, run, paths, contents, TreeOf(norm, marker, run, paths, contents), key)
    decreases |paths|
  {
    if paths == [] {
      assert Normalized(norm, marker) != [];
    } else {
      var n := |paths| - 1;
      AcceptablePrefix(norm, marker, paths, n);
      TreeOfMeans(norm, marker, run, paths[..n], contents[..n], key);
      FileAdded(norm, marker, run, paths[..n], contents[..n], paths[n], contents[n],
                TreeOf(norm, marker, run, paths[..n], contents[..n]), key);
      assert paths == paths[..n] + [paths[n]] && contents == contents[..n] + [contents[n]];
    }
  }

  lemma FileAdded(norm: string -> string, marker: Parts, run: nat, paths: seq<Parts>, contents: seq<nat>,
                  last: Parts, content: nat, tree: map<Parts, Node>, key: Parts)
    requires last != [] && |contents| == |paths| && TreeMeans(norm, marker, run, paths, contents, tree, key)
    requires AvoidsMarker(norm, marker, last)
    requires forall a :: 0 <= a < |paths| ==> Compatible(norm, paths[a], last)
    ensures TreeMeans(norm, marker, run, paths + [last], contents + [content], WithFile(norm, tree, last, content), key)
  {
    var all := paths + [last];
    var whole := Normalized(norm, last);
    WithDirectoriesAre(tree, whole, |last| - 1, key);
    assert all[|paths|] == last && forall a :: 0 <= a < |paths| ==> all[a] == paths[a];
    assert whole[..|whole|] == whole;
    if key == whole {
      assert forall a :: 0 <= a < |paths| ==> Normalized(norm, paths[a]) != key by {
        forall a | 0 <= a < |paths| ensures Normalized(norm, paths[a]) != key {
          assert Compatible(norm, paths[a], last);
        }
      }
    }
  }

  /** A compatible file finds room in the tree of the others. */
  lemma RoomForCompatible(norm: string -> string, marker: Parts, run: nat, paths: seq<Parts>, contents: seq<nat>, last: Parts)
    requires |contents| == |paths| && marker != [] && last != [] && forall a :: 0 <= a < |paths| ==> paths[a] != []
    requires Acceptable(norm, marker, paths) && AvoidsMarker(norm, marker, last)
    requires forall a :: 0 <= a < |paths| ==> Compatible(norm, paths[a], last)
    ensures HasRoom(TreeOf(norm, marker, run, paths, contents), Normalized(norm, last))
  {
    var tree, whole := TreeOf(norm, marker, run, paths, contents), Normalized(norm, last);
    TreeOfMeans(norm, marker, run, paths, contents, whole);
    forall a | 0 <= a < |paths| ensures !IsKeyOf(norm, paths[a], whole) {
      assert Compatible(norm, paths[a], last);
    }
    forall n | 1 <= n < |whole| && whole[..n] in tree ensures tree[whole[..n]] == Directory {
      TreeOfMeans(norm, marker, run, paths, contents, whole[..n]);
      assert whole[..n] <= whole;
      forall a | 0 <= a < |paths| ensures Normalized(norm, paths[a]) != whole[..n] {
        assert Compatible(norm, paths[a], last);
      }
    }
  }

  class FileTree {
    const norm: string -> string
    var nodes: map<Parts, Node>

    constructor (norm: string -> string, marker: Parts, run: nat)
      ensures this.norm == norm && nodes == TreeOf(norm, marker, run, [], [])
    {
      this.norm := norm;
      nodes := map[[] := Directory, Normalized(norm, marker) := File(marker, run)];
    }

    /** `_copy_tracked_file`: makes the missing directories, then creates the file exclusively. */
    method CopyFile(parts: Parts, content: nat) returns (ok: bool)
      requires parts != []
      modifies this
      ensures ok <==> HasRoom(old(nodes), Normalized(norm, parts))
      ensures ok ==> nodes == WithFile(norm, old(nodes), parts, content)
    {
      var whole := Normalized(norm, parts);
      for n := 1 to |parts|
        invariant nodes == WithDirectories(old(nodes), whole, n - 1)
        invariant forall m :: 1 <= m < n && whole[..m] in old(nodes) ==> old(nodes)[whole[..m]] == Directory
      {
        WithDirectoriesAre(old(nodes), whole, n - 1, whole[..n]);
        if whole[..n] !in nodes {
          nodes := nodes[whole[..n] := Directory];
        } else if nodes[whole[..n]] != Directory {
          return false;
        }
      }
      WithDirectoriesAre(old(nodes), whole, |parts| - 1, whole);
      if whole in nodes { return false; }
      nodes := nodes[whole := File(parts, content)];
      ok := true;
    }
  }

  /**
   * The copy of an accepted list never collides and yields exactly the entries, the directories
   * above them and the marker.
   */
  method CopySnapshot(norm: string -> string, marker: Parts, run: nat, paths: seq<Parts>, contents: seq<nat>)
    returns (ok: bool, tree: FileTree)
    requires |contents| == |paths| && marker != [] && forall a :: 0 <= a < |paths| ==> paths[a] != []
    requires Acceptable(norm, marker, paths)
    ensures ok && tree.nodes == TreeOf(norm, marker, run, paths, contents)
    ensures forall key :: TreeMeans(norm, marker, run, paths, contents, tree.nodes, key)
  {
    tree := new FileTree(norm, marker, run);
    for i := 0 to |paths|
      invariant tree.norm == norm && fresh(tree)
      invariant tree.nodes == TreeOf(norm, marker, run, paths[..i], contents[..i])
    {
      RoomForCompatible(norm, marker, run, paths[..i], contents[..i], paths[i]);
      assert paths[..i + 1][..i] == paths[..i] && contents[..i + 1][..i] == contents[..i];
      ok := tree.CopyFile(paths[i], contents[i]);
      assert ok;
    }
    assert paths[..|paths|] == paths && contents[..|paths|] == contents;
    ok := true;
    forall key ensures TreeMeans(norm, marker, run, paths, contents, tree.nodes, key) {
      TreeOfMeans(norm, marker, run, paths, contents, key);
    }
  }
}

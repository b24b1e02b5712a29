/** Field discovery: `JsonToCsvExtractor._traverse_json` and `_get_all_fields`.
    A depth-first, pre-order walk of one sample record: every dict key gives
    one path, emitted before the paths below it; a list whose first element
    is a dict is walked element by element under the element's decimal index;
    nothing else gives a path. */
module Discovery {
  import opened Strings
  import opened Json
  import opened Resolution

  /** `_traverse_json(v, prefix, fields)`: the segment paths it appends. */
  function Discover(v: Json, prefix: Path): (r: seq<Path>)
    ensures forall j :: 0 <= j < |r| ==> Below(r[j], prefix)
    ensures !IsContainer(v) ==> r == []
    ensures v.JArray? && (|v.elems| == 0 || !v.elems[0].JObject?) ==> r == []
    decreases v
  {
    match v
    case JObject(ms) => DiscoverMembers(v, prefix, 0)
    case JArray(es) =>
      if |es| > 0 && es[0].JObject? then DiscoverElems(v, prefix, 0) else []
    case _ => []
  }

  /** `s` spells an index from `lo` up to (not including) `hi`. */
  predicate IndexAtLeast(s: string, lo: nat, hi: nat) {
    IsDigits(s) && lo <= ParseNat(s) < hi
  }

  /** `q` extends `prefix` by at least one segment. */
  predicate Below(q: Path, prefix: Path) {
    |q| > |prefix| && q[..|prefix|] == prefix
  }

  /** The dict loop, from member `i` on: each key's path, then its subtree. */
  function DiscoverMembers(v: Json, prefix: Path, i: nat): (r: seq<Path>)
    requires v.JObject? && i <= |v.members|
    ensures forall j :: 0 <= j < |r| ==>
              Below(r[j], prefix) && r[j][|prefix|] in Keys(v.members)[i..]
    decreases v, |v.members| - i
  {
    if i == |v.members| then []
    else
      var p := prefix + [v.members[i].0];
      var d := Discover(v.members[i].1, p);
      var rest := DiscoverMembers(v, prefix, i + 1);
      var r := [p] + d + rest;
      assert forall j :: 0 <= j < |d| ==> d[j][|prefix|] == v.members[i].0 by {
        forall j | 0 <= j < |d| ensures d[j][|prefix|] == v.members[i].0 {
          assert d[j][..|p|] == p;
          assert d[j][..|p|][|prefix|] == p[|prefix|];
        }
      }
      assert forall j :: 0 <= j < |d| ==> Below(d[j], prefix) by {
        forall j | 0 <= j < |d| ensures Below(d[j], prefix) {
          assert d[j][..|p|] == p;
          assert d[j][..|prefix|] == d[j][..|p|][..|prefix|];
        }
      }
      assert forall j :: 0 <= j < |r| ==>
               j == 0 || (1 <= j < 1 + |d| && r[j] == d[j - 1]) || (1 + |d| <= j && r[j] == rest[j - 1 - |d|]);
      r
  }

  /** The list loop, from index `i` on: each element walked under `str(i)`. */
  function DiscoverElems(v: Json, prefix: Path, i: nat): (r: seq<Path>)
    requires v.JArray? && i <= |v.elems|
    ensures forall j :: 0 <= j < |r| ==>
              Below(r[j], prefix) && IndexAtLeast(r[j][|prefix|], i, |v.elems|)
    decreases v, |v.elems| - i
  {
    if i == |v.elems| then []
    else
      var p := prefix + [NatToString(i)];
      var d := Discover(v.elems[i], p);
      var rest := DiscoverElems(v, prefix, i + 1);
      assert forall j :: 0 <= j < |d| ==> Below(d[j], prefix) && d[j][|prefix|] == NatToString(i) by {
        forall j | 0 <= j < |d| ensures Below(d[j], prefix) && d[j][|prefix|] == NatToString(i) {
          assert d[j][..|p|] == p;
          assert d[j][..|p|][|prefix|] == p[|prefix|];
          assert d[j][..|prefix|] == d[j][..|p|][..|prefix|];
        }
      }
      var r := d + rest;
      assert forall j :: 0 <= j < |r| ==> (j < |d| && r[j] == d[j]) || (|d| <= j && r[j] == rest[j - |d|]);
      r
  }

  /** `_get_all_fields(sample)`: the discovered paths as dotted field names. */
  function GetAllFields(sample: Json): (fields: seq<string>)
    ensures |fields| == |Discover(sample, [])|
    ensures forall j :: 0 <= j < |fields| ==> fields[j] == Join(".", Discover(sample, [])[j])
    ensures forall j :: 0 <= j < |fields| ==> Split(fields[j], '.') == Discover(sample, [])[j]
                                               || DotIn(Discover(sample, [])[j])
  {
    var paths := Discover(sample, []);
    var fields := seq(|paths|, j requires 0 <= j < |paths| => Join(".", paths[j]));
    assert forall j :: 0 <= j < |fields| ==> Split(fields[j], '.') == paths[j] || DotIn(paths[j]) by {
      forall j | 0 <= j < |fields| ensures Split(fields[j], '.') == paths[j] || DotIn(paths[j]) {
        if !DotIn(paths[j]) {
          SplitJoin(paths[j], '.');
        }
      }
    }
    fields
  }

  /** Some segment of the path holds a '.', so its dotted name is ambiguous. */
  predicate DotIn(p: Path) {
    exists i :: 0 <= i < |p| && '.' in p[i]
  }

  /** No key at any depth contains '.', so dotted names split back into the
      segments they were joined from. */
  predicate DotFreeKeys(v: Json) {
    match v
    case JArray(es) => forall i :: 0 <= i < |es| ==> DotFreeKeys(es[i])
    case JObject(ms) => forall i :: 0 <= i < |ms| ==> '.' !in ms[i].0 && DotFreeKeys(ms[i].1)
    case _ => true
  }

  /** Soundness of discovery against resolution: every path discovered in a
      sample extends the prefix, and the part below the prefix resolves in
      the same sample to a value (never to a miss). */
  lemma {:induction false} DiscoverResolves(v: Json, prefix: Path)
    requires WellFormed(v)
    ensures forall q :: q in Discover(v, prefix) ==> ResolveSegs(v, q[|prefix|..]).Some?
    decreases v, 2
  {
    match v
    case JObject(ms) => MembersResolve(v, prefix, 0);
    case JArray(es) =>
      if |es| > 0 && es[0].JObject? {
        ElemsResolve(v, prefix, 0);
      }
    case _ =>
  }

  lemma {:induction false} MembersResolve(v: Json, prefix: Path, i: nat)
    requires v.JObject? && i <= |v.members| && WellFormed(v)
    ensures forall q :: q in DiscoverMembers(v, prefix, i) ==> ResolveSegs(v, q[|prefix|..]).Some?
    decreases v, 1, |v.members| - i
  {
    if i < |v.members| {
      var ms := v.members;
      var k := ms[i].0;
      var p := prefix + [k];
      var d := Discover(ms[i].1, p);
      GetMember(ms, i);
      assert Step(v, k) == Some(ms[i].1);
      DiscoverResolves(ms[i].1, p);
      MembersResolve(v, prefix, i + 1);
      forall q | q in [p] + d
        ensures ResolveSegs(v, q[|prefix|..]).Some?
      {
        var s := q[|prefix|..];
        assert s[0] == k by {
          if q == p {
          } else {
            assert q[..|p|] == p;
            assert q[|prefix|] == q[..|p|][|prefix|];
          }
        }
        assert s[1..] == q[|p|..];
        assert ResolveSegs(v, s) == ResolveSegs(ms[i].1, q[|p|..]);
      }
    }
  }

  lemma {:induction false} ElemsResolve(v: Json, prefix: Path, i: nat)
    requires v.JArray? && i <= |v.elems| && WellFormed(v)
    ensures forall q :: q in DiscoverElems(v, prefix, i) ==> ResolveSegs(v, q[|prefix|..]).Some?
    decreases v, 1, |v.elems| - i
  {
    if i < |v.elems| {
      var es := v.elems;
      var k := NatToString(i);
      var p := prefix + [k];
      var d := Discover(es[i], p);
      assert Step(v, k) == Some(es[i]);
      DiscoverResolves(es[i], p);
      ElemsResolve(v, prefix, i + 1);
      forall q | q in d
        ensures ResolveSegs(v, q[|prefix|..]).Some?
      {
        var s := q[|prefix|..];
        assert q[..|p|] == p;
        assert s[0] == k by {
          assert q[|prefix|] == q[..|p|][|prefix|];
        }
        assert s[1..] == q[|p|..];
        assert ResolveSegs(v, s) == ResolveSegs(es[i], q[|p|..]);
      }
    }
  }

  /** Soundness on dotted field names: when no key holds a '.', every field
      `_get_all_fields` reports resolves, in the sample it came from, to a
      value rather than a miss. */
  lemma AllFieldsResolve(sample: Json)
    requires WellFormed(sample) && DotFreeKeys(sample)
    ensures forall f :: f in GetAllFields(sample) ==> Resolve(sample, f).Some?
  {
    var paths := Discover(sample, []);
    var fields := GetAllFields(sample);
    DiscoverResolves(sample, []);
    DiscoverDotFree(sample, []);
    forall f | f in fields ensures Resolve(sample, f).Some? {
      var j :| 0 <= j < |fields| && fields[j] == f;
      assert paths[j] in paths;
      assert paths[j][0..] == paths[j];
    }
  }

  /** With dot-free keys (and indices, which are digits), no discovered path
      has a segment holding a '.'. */
  lemma {:induction false} DiscoverDotFree(v: Json, prefix: Path)
    requires DotFreeKeys(v) && !DotIn(prefix)
    ensures forall q :: q in Discover(v, prefix) ==> !DotIn(q)
    decreases v, 2
  {
    match v
    case JObject(ms) => MembersDotFree(v, prefix, 0);
    case JArray(es) =>
      if |es| > 0 && es[0].JObject? {
        ElemsDotFree(v, prefix, 0);
      }
    case _ =>
  }

  lemma {:induction false} MembersDotFree(v: Json, prefix: Path, i: nat)
    requires v.JObject? && i <= |v.members| && DotFreeKeys(v) && !DotIn(prefix)
    ensures forall q :: q in DiscoverMembers(v, prefix, i) ==> !DotIn(q)
    decreases v, 1, |v.members| - i
  {
    if i < |v.members| {
      var p := prefix + [v.members[i].0];
      assert !DotIn(p) by {
        forall j | 0 <= j < |p| ensures '.' !in p[j] {
          if j < |prefix| { assert p[j] == prefix[j]; }
        }
      }
      DiscoverDotFree(v.members[i].1, p);
      MembersDotFree(v, prefix, i + 1);
    }
  }

  lemma {:induction false} ElemsDotFree(v: Json, prefix: Path, i: nat)
    requires v.JArray? && i <= |v.elems| && DotFreeKeys(v) && !DotIn(prefix)
    ensures forall q :: q in DiscoverElems(v, prefix, i) ==> !DotIn(q)
    decreases v, 1, |v.elems| - i
  {
    if i < |v.elems| {
      var p := prefix + [NatToString(i)];
      assert !DotIn(p) by {
        forall j | 0 <= j < |p| ensures '.' !in p[j] {
          if j < |prefix| {
            assert p[j] == prefix[j];
          } else {
            var s := NatToString(i);
            assert forall c :: c in s ==> IsDigit(c);
          }
        }
      }
      DiscoverDotFree(v.elems[i], p);
      ElemsDotFree(v, prefix, i + 1);
    }
  }

  /** `a` is an ancestor of `b`: a strictly shorter path `b` starts with. */
  predicate IsProperPrefix(a: Path, b: Path) {
    |a| < |b| && b[..|a|] == a
  }

  /** Pre-order: whenever one listed path is an ancestor of another, it is
      listed first. */
  predicate ParentFirst(out: seq<Path>) {
    forall i, j :: 0 <= i < |out| && 0 <= j < |out| && IsProperPrefix(out[i], out[j]) ==> i < j
  }

  lemma ParentFirstConcat(a: seq<Path>, b: seq<Path>)
    requires ParentFirst(a) && ParentFirst(b)
    requires forall x, y :: 0 <= x < |a| && 0 <= y < |b| ==> !IsProperPrefix(b[y], a[x])
    ensures ParentFirst(a + b)
  {
    var c := a + b;
    forall i, j | 0 <= i < |c| && 0 <= j < |c| && IsProperPrefix(c[i], c[j])
      ensures i < j
    {
      if i < |a| && j < |a| {
        assert c[i] == a[i] && c[j] == a[j];
      } else if |a| <= i && |a| <= j {
        assert c[i] == b[i - |a|] && c[j] == b[j - |a|];
      }
    }
  }

  /** Discovery is pre-order: a parent path always comes before every path
      below it (for samples whose dicts have distinct keys). */
  lemma {:induction false} DiscoverParentFirst(v: Json, prefix: Path)
    requires WellFormed(v)
    ensures ParentFirst(Discover(v, prefix))
    decreases v, 2
  {
    match v
    case JObject(ms) => MembersParentFirst(v, prefix, 0);
    case JArray(es) =>
      if |es| > 0 && es[0].JObject? {
        ElemsParentFirst(v, prefix, 0);
      }
    case _ =>
  }

  lemma {:induction false} MembersParentFirst(v: Json, prefix: Path, i: nat)
    requires v.JObject? && i <= |v.members| && WellFormed(v)
    ensures ParentFirst(DiscoverMembers(v, prefix, i))
    decreases v, 1, |v.members| - i
  {
    if i < |v.members| {
      var k := v.members[i].0;
      var p := prefix + [k];
      var head := [p] + Discover(v.members[i].1, p);
      var rest := DiscoverMembers(v, prefix, i + 1);
      assert DiscoverMembers(v, prefix, i) == head + rest;
      DiscoverParentFirst(v.members[i].1, p);
      HeadParentFirst(v.members[i].1, prefix, k);
      MembersParentFirst(v, prefix, i + 1);
      RestSegments(v, prefix, i);
      SegmentsApart(head, rest, |prefix|, k);
      ParentFirstConcat(head, rest);
    }
  }

  /** A key's path followed by its subtree is pre-order. */
  lemma HeadParentFirst(x: Json, prefix: Path, k: string)
    requires ParentFirst(Discover(x, prefix + [k]))
    ensures var head := [prefix + [k]] + Discover(x, prefix + [k]);
            ParentFirst(head) && forall j :: 0 <= j < |head| ==> |head[j]| > |prefix| && head[j][|prefix|] == k
  {
    var p := prefix + [k];
    var d := Discover(x, p);
    forall j | 0 <= j < |d| ensures !IsProperPrefix(d[j], p) {
      assert Below(d[j], p);
    }
    ParentFirstConcat([p], d);
    HeadSegments(x, prefix, k);
  }

  /** Every path of a key's block (its own path, then its subtree) has the
      key at position `|prefix|`. */
  lemma HeadSegments(x: Json, prefix: Path, k: string)
    ensures var head := [prefix + [k]] + Discover(x, prefix + [k]);
            forall j :: 0 <= j < |head| ==> |head[j]| > |prefix| && head[j][|prefix|] == k
  {
    var p := prefix + [k];
    var d := Discover(x, p);
    var head := [p] + d;
    SubtreeSegment(x, prefix, k);
    forall j | 0 <= j < |head| ensures |head[j]| > |prefix| && head[j][|prefix|] == k {
      if j > 0 { assert head[j] == d[j - 1]; }
    }
  }

  /** With distinct keys, no path from the members after `i` has member
      `i`'s key at position `|prefix|`. */
  lemma RestSegments(v: Json, prefix: Path, i: nat)
    requires v.JObject? && i < |v.members| && DistinctKeys(v.members)
    ensures var rest := DiscoverMembers(v, prefix, i + 1);
            forall y :: 0 <= y < |rest| ==> |rest[y]| > |prefix| && rest[y][|prefix|] != v.members[i].0
  {
    var rest := DiscoverMembers(v, prefix, i + 1);
    forall y | 0 <= y < |rest| ensures |rest[y]| > |prefix| && rest[y][|prefix|] != v.members[i].0 {
      LaterKey(v.members, i, rest[y][|prefix|]);
    }
  }

  /** Every path below `prefix + [k]` has `k` at position `|prefix|`. */
  lemma SubtreeSegment(x: Json, prefix: Path, k: string)
    ensures forall q :: q in Discover(x, prefix + [k]) ==> |q| > |prefix| + 1 && q[..|prefix|] == prefix && q[|prefix|] == k
  {
    var p := prefix + [k];
    forall q | q in Discover(x, p) ensures |q| > |prefix| + 1 && q[..|prefix|] == prefix && q[|prefix|] == k {
      assert Below(q, p);
      assert q[..|prefix|] == q[..|p|][..|prefix|];
      assert q[|prefix|] == q[..|p|][|prefix|];
    }
  }

  /** Paths that differ at position `n` are never ancestors of each other there. */
  lemma SegmentsApart(a: seq<Path>, b: seq<Path>, n: nat, k: string)
    requires forall x :: 0 <= x < |a| ==> |a[x]| > n && a[x][n] == k
    requires forall y :: 0 <= y < |b| ==> |b[y]| > n && b[y][n] != k
    ensures forall x, y :: 0 <= x < |a| && 0 <= y < |b| ==> !IsProperPrefix(b[y], a[x])
  {
    forall x, y | 0 <= x < |a| && 0 <= y < |b| ensures !IsProperPrefix(b[y], a[x]) {
      if |b[y]| < |a[x]| {
        assert a[x][..|b[y]|][n] == a[x][n];
      }
    }
  }

  /** With distinct keys, a key of a later member is not member `i`'s key. */
  lemma LaterKey(ms: seq<(string, Json)>, i: nat, s: string)
    requires DistinctKeys(ms) && i < |ms|
    requires s in Keys(ms)[i + 1..]
    ensures s != ms[i].0
  {
    var m :| 0 <= m < |Keys(ms)[i + 1..]| && Keys(ms)[i + 1..][m] == s;
    assert s == ms[i + 1 + m].0;
  }

  /** With distinct keys, a key of an earlier member is not member `i`'s key. */
  lemma EarlierKey(ms: seq<(string, Json)>, i: nat, s: string)
    requires DistinctKeys(ms) && i < |ms|
    requires s in Keys(ms)[..i]
    ensures s != ms[i].0
  {
    var m :| 0 <= m < i && Keys(ms)[..i][m] == s;
    assert s == ms[m].0;
  }

  lemma {:induction false} ElemsParentFirst(v: Json, prefix: Path, i: nat)
    requires v.JArray? && i <= |v.elems| && WellFormed(v)
    ensures ParentFirst(DiscoverElems(v, prefix, i))
    decreases v, 1, |v.elems| - i
  {
    if i < |v.elems| {
      var k := NatToString(i);
      var p := prefix + [k];
      var d := Discover(v.elems[i], p);
      var rest := DiscoverElems(v, prefix, i + 1);
      DiscoverParentFirst(v.elems[i], p);
      ElemsParentFirst(v, prefix, i + 1);
      forall x, y | 0 <= x < |d| && 0 <= y < |rest| ensures !IsProperPrefix(rest[y], d[x]) {
        assert Below(d[x], p);
        assert d[x][|prefix|] == d[x][..|p|][|prefix|];
        assert ParseNat(rest[y][|prefix|]) != ParseNat(k);
      }
      ParentFirstConcat(d, rest);
    }
  }

  // Completeness and order.

  /** How many paths members `j` up to (not including) `i` emit: each key's
      own path plus its subtree. */
  function MembersSpan(ms: seq<(string, Json)>, prefix: Path, j: nat, i: nat): nat
    requires j <= i <= |ms|
    decreases i - j
  {
    if j == i then 0 else 1 + |Discover(ms[j].1, prefix + [ms[j].0])| + MembersSpan(ms, prefix, j + 1, i)
  }

  /** How many paths elements `j` up to (not including) `i` emit. */
  function ElemsSpan(es: seq<Json>, prefix: Path, j: nat, i: nat): nat
    requires j <= i <= |es|
    decreases i - j
  {
    if j == i then 0 else |Discover(es[j], prefix + [NatToString(j)])| + ElemsSpan(es, prefix, j + 1, i)
  }

  /** What the dict loop emits from member `j` before reaching member `i`:
      `MembersSpan` paths, each continuing with a key of a member in `j..i`,
      then the output from `i` on. */
  lemma {:induction false} MembersBefore(v: Json, prefix: Path, j: nat, i: nat)
    requires v.JObject? && j <= i <= |v.members|
    ensures var r := DiscoverMembers(v, prefix, j);
            var n := MembersSpan(v.members, prefix, j, i);
            n <= |r| && r[n..] == DiscoverMembers(v, prefix, i)
            && forall m :: 0 <= m < n ==> r[m][|prefix|] in Keys(v.members)[j..i]
    decreases i - j
  {
    if j < i {
      var k := v.members[j].0;
      var p := prefix + [k];
      var head := [p] + Discover(v.members[j].1, p);
      var r := DiscoverMembers(v, prefix, j);
      var r1 := DiscoverMembers(v, prefix, j + 1);
      var n1 := MembersSpan(v.members, prefix, j + 1, i);
      assert r == head + r1;
      MembersBefore(v, prefix, j + 1, i);
      HeadSegments(v.members[j].1, prefix, k);
      SegmentsStep(v.members, j, i, k, head, r1, n1, |prefix|);
    }
  }

  /** The inductive step of `MembersBefore`: member `j`'s block, all with key
      `k`, in front of paths whose keys come from `j + 1..i`. */
  lemma SegmentsStep(ms: seq<(string, Json)>, j: nat, i: nat, k: string,
                     head: seq<Path>, r1: seq<Path>, n1: nat, at: nat)
    requires j < i <= |ms| && ms[j].0 == k && n1 <= |r1|
    requires forall x :: 0 <= x < |head| ==> |head[x]| > at && head[x][at] == k
    requires forall m :: 0 <= m < n1 ==> |r1[m]| > at && r1[m][at] in Keys(ms)[j + 1..i]
    ensures forall m :: 0 <= m < |head| + n1 ==> |(head + r1)[m]| > at && (head + r1)[m][at] in Keys(ms)[j..i]
  {
    assert Keys(ms)[j..i] == [k] + Keys(ms)[j + 1..i];
    forall m | 0 <= m < |head| + n1 ensures |(head + r1)[m]| > at && (head + r1)[m][at] in Keys(ms)[j..i] {
      if m < |head| {
        assert (head + r1)[m] == head[m];
      } else {
        assert (head + r1)[m] == r1[m - |head|];
      }
    }
  }

  /** Completeness and order for a dict: the path of key `i` occurs exactly
      once, at the position the earlier members' blocks take up, and is
      followed at once by the key's whole subtree; every path before it
      continues with an earlier key and every path after it with a later
      key. */
  lemma {:induction false} MemberBlock(ms: seq<(string, Json)>, prefix: Path, i: nat)
    requires DistinctKeys(ms) && i < |ms|
    ensures var r := Discover(JObject(ms), prefix);
            var p := prefix + [ms[i].0];
            var d := Discover(ms[i].1, p);
            var n := MembersSpan(ms, prefix, 0, i);
            && n + 1 + |d| <= |r| && r[n] == p && r[n + 1..n + 1 + |d|] == d
            && (forall m :: 0 <= m < |r| && m != n ==> r[m] != p)
            && (forall m :: 0 <= m < n ==> r[m][|prefix|] in Keys(ms)[..i])
            && (forall m :: n + 1 + |d| <= m < |r| ==> r[m][|prefix|] in Keys(ms)[i + 1..])
  {
    var v := JObject(ms);
    var r := Discover(v, prefix);
    var k := ms[i].0;
    var p := prefix + [k];
    var d := Discover(ms[i].1, p);
    var s := DiscoverMembers(v, prefix, i);
    var rest := DiscoverMembers(v, prefix, i + 1);
    var n := MembersSpan(ms, prefix, 0, i);
    MembersBefore(v, prefix, 0, i);
    assert Keys(ms)[0..i] == Keys(ms)[..i];
    assert s == [p] + d + rest;
    assert r[n..] == s;
    assert r[n] == p by { assert r[n] == r[n..][0]; }
    assert r[n + 1..n + 1 + |d|] == d by {
      assert r[n + 1..n + 1 + |d|] == r[n..][1..1 + |d|];
      assert s[1..1 + |d|] == d;
    }
    forall m | n + 1 + |d| <= m < |r| ensures r[m][|prefix|] in Keys(ms)[i + 1..] {
      assert r[m] == rest[m - n - 1 - |d|];
    }
    PathOnce(ms, i, prefix, r, n, d);
  }

  /** The uniqueness half of `MemberBlock`: paths before and after the block
      continue with other keys, and subtree paths are longer. */
  lemma PathOnce(ms: seq<(string, Json)>, i: nat, prefix: Path, r: seq<Path>, n: nat, d: seq<Path>)
    requires DistinctKeys(ms) && i < |ms|
    requires n + 1 + |d| <= |r| && r[n + 1..n + 1 + |d|] == d
    requires forall x :: 0 <= x < |d| ==> Below(d[x], prefix + [ms[i].0])
    requires forall m :: 0 <= m < n ==> |r[m]| > |prefix| && r[m][|prefix|] in Keys(ms)[..i]
    requires forall m :: n + 1 + |d| <= m < |r| ==> |r[m]| > |prefix| && r[m][|prefix|] in Keys(ms)[i + 1..]
    ensures forall m :: 0 <= m < |r| && m != n ==> r[m] != prefix + [ms[i].0]
  {
    var p := prefix + [ms[i].0];
    forall m | 0 <= m < |r| && m != n ensures r[m] != p {
      if m < n {
        EarlierKey(ms, i, r[m][|prefix|]);
        assert r[m][|prefix|] != p[|prefix|];
      } else if m < n + 1 + |d| {
        assert r[m] == d[m - n - 1];
      } else {
        LaterKey(ms, i, r[m][|prefix|]);
        assert r[m][|prefix|] != p[|prefix|];
      }
    }
  }

  /** Nothing but the key blocks: a dict's output is exactly as long as all
      its members' blocks together, so with `MemberBlock` for every key the
      output is those blocks back to back, in insertion order. */
  lemma MembersExhaust(ms: seq<(string, Json)>, prefix: Path)
    ensures |Discover(JObject(ms), prefix)| == MembersSpan(ms, prefix, 0, |ms|)
  {
    MembersBefore(JObject(ms), prefix, 0, |ms|);
  }

  /** What the list loop emits from index `j` before reaching index `i`:
      `ElemsSpan` paths, each continuing with an index in `j..i`, then the
      output from `i` on. */
  lemma {:induction false} ElemsBefore(v: Json, prefix: Path, j: nat, i: nat)
    requires v.JArray? && j <= i <= |v.elems|
    ensures var r := DiscoverElems(v, prefix, j);
            var n := ElemsSpan(v.elems, prefix, j, i);
            n <= |r| && r[n..] == DiscoverElems(v, prefix, i)
            && forall m :: 0 <= m < n ==> IndexAtLeast(r[m][|prefix|], j, i)
    decreases i - j
  {
    if j < i {
      var k := NatToString(j);
      var p := prefix + [k];
      var d := Discover(v.elems[j], p);
      var r := DiscoverElems(v, prefix, j);
      var r1 := DiscoverElems(v, prefix, j + 1);
      var n := ElemsSpan(v.elems, prefix, j, i);
      assert r == d + r1;
      ElemsBefore(v, prefix, j + 1, i);
      SubtreeSegment(v.elems[j], prefix, k);
      IndexStep(d, r1, ElemsSpan(v.elems, prefix, j + 1, i), |prefix|, j, i, k);
    }
  }

  /** The inductive step of `ElemsBefore`: element `j`'s block, all with
      index `k`, in front of paths whose indices lie in `j + 1..i`. */
  lemma IndexStep(d: seq<Path>, r1: seq<Path>, n1: nat, at: nat, j: nat, i: nat, k: string)
    requires j < i && k == NatToString(j) && n1 <= |r1|
    requires forall q :: q in d ==> |q| > at + 1 && q[at] == k
    requires forall m :: 0 <= m < n1 ==> |r1[m]| > at && IndexAtLeast(r1[m][at], j + 1, i)
    ensures forall m :: 0 <= m < |d| + n1 ==> |(d + r1)[m]| > at && IndexAtLeast((d + r1)[m][at], j, i)
  {
    forall m | 0 <= m < |d| + n1 ensures |(d + r1)[m]| > at && IndexAtLeast((d + r1)[m][at], j, i) {
      if m < |d| {
        assert (d + r1)[m] == d[m] && d[m] in d;
      } else {
        assert (d + r1)[m] == r1[m - |d|];
      }
    }
  }

  /** Completeness and order for a list of dicts: element `i`'s paths occur
      as one contiguous block, at the position the earlier elements' blocks
      take up; every path before it continues with a smaller index and every
      path after it with a larger one. */
  lemma {:induction false} ElemBlock(es: seq<Json>, prefix: Path, i: nat)
    requires |es| > 0 && es[0].JObject? && i < |es|
    ensures var r := Discover(JArray(es), prefix);
            var d := Discover(es[i], prefix + [NatToString(i)]);
            var n := ElemsSpan(es, prefix, 0, i);
            && n + |d| <= |r| && r[n..n + |d|] == d
            && (forall m :: 0 <= m < n ==> IndexAtLeast(r[m][|prefix|], 0, i))
            && (forall m :: n + |d| <= m < |r| ==> IndexAtLeast(r[m][|prefix|], i + 1, |es|))
  {
    var v := JArray(es);
    var r := Discover(v, prefix);
    var d := Discover(es[i], prefix + [NatToString(i)]);
    var s := DiscoverElems(v, prefix, i);
    var rest := DiscoverElems(v, prefix, i + 1);
    var n := ElemsSpan(es, prefix, 0, i);
    ElemsBefore(v, prefix, 0, i);
    assert s == d + rest;
    assert r[n..] == s;
    assert r[n..n + |d|] == d by {
      assert r[n..n + |d|] == r[n..][..|d|];
      assert s[..|d|] == d;
    }
    forall m | n + |d| <= m < |r| ensures IndexAtLeast(r[m][|prefix|], i + 1, |es|) {
      assert r[m] == rest[m - n - |d|];
    }
  }

  /** Nothing but the element blocks: a list of dicts emits exactly as many
      paths as its elements' blocks hold together, in index order. */
  lemma ElemsExhaust(es: seq<Json>, prefix: Path)
    requires |es| > 0 && es[0].JObject?
    ensures |Discover(JArray(es), prefix)| == ElemsSpan(es, prefix, 0, |es|)
  {
    ElemsBefore(JArray(es), prefix, 0, |es|);
  }

  /** `{"name": "A", "salary": {"from": 100}}` gives `name`, `salary`,
      `salary.from`, in that order. */
  lemma NestedObjectExample()
    ensures GetAllFields(JObject([("name", JString("A")),
                                  ("salary", JObject([("from", JNum(100))]))]))
            == ["name", "salary", "salary.from"]
  {
    var salary := JObject([("from", JNum(100))]);
    var v := JObject([("name", JString("A")), ("salary", salary)]);
    assert DiscoverMembers(salary, ["salary"], 1) == [];
    assert ["salary"] + ["from"] == ["salary", "from"];
    assert Discover(JNum(100), ["salary", "from"]) == [];
    assert Discover(JString("A"), ["name"]) == [];
    assert Discover(salary, ["salary"]) == DiscoverMembers(salary, ["salary"], 0);
    assert DiscoverMembers(salary, ["salary"], 0) == [["salary", "from"]];
    assert DiscoverMembers(v, [], 2) == [];
    assert [] + ["salary"] == ["salary"] && [] + ["name"] == ["name"];
    assert DiscoverMembers(v, [], 1) == [["salary"], ["salary", "from"]];
    assert DiscoverMembers(v, [], 0) == [["name"], ["salary"], ["salary", "from"]];
    assert Join(".", ["salary", "from"]) == "salary.from";
  }

  /** A list of dicts is walked once per element, with no de-duplication:
      `{"tags": [{"a": 1}, {"a": 2}]}` gives `tags`, `tags.0.a`, `tags.1.a`. */
  lemma PerIndexExample()
    ensures GetAllFields(JObject([("tags", JArray([JObject([("a", JNum(1))]),
                                                   JObject([("a", JNum(2))])]))]))
            == ["tags", "tags.0.a", "tags.1.a"]
  {
    var tags := JArray([JObject([("a", JNum(1))]), JObject([("a", JNum(2))])]);
    var v := JObject([("tags", tags)]);
    var d := [["tags", "0", "a"], ["tags", "1", "a"]];
    assert Discover(tags, ["tags"]) == d by {
      ElementPaths(1, 0);
      ElementPaths(2, 1);
      assert NatToString(0) == "0" && NatToString(1) == "1";
      assert ["tags"] + ["0"] == ["tags", "0"] && ["tags"] + ["1"] == ["tags", "1"];
      assert DiscoverElems(tags, ["tags"], 2) == [];
      assert DiscoverElems(tags, ["tags"], 1) == [["tags", "1", "a"]];
      assert DiscoverElems(tags, ["tags"], 0) == d;
    }
    assert DiscoverMembers(v, [], 1) == [];
    assert [] + ["tags"] == ["tags"];
    assert Discover(v, []) == [["tags"]] + d;
    assert Join(".", ["tags", "0", "a"]) == "tags.0.a";
    assert Join(".", ["tags", "1", "a"]) == "tags.1.a";
  }

  lemma ElementPaths(n: int, i: nat)
    requires i < 10
    ensures Discover(JObject([("a", JNum(n))]), ["tags", NatToString(i)])
            == [["tags", NatToString(i), "a"]]
  {
    var e := JObject([("a", JNum(n))]);
    var p := ["tags", NatToString(i)];
    assert p + ["a"] == ["tags", NatToString(i), "a"];
    assert Discover(JNum(n), p + ["a"]) == [];
    assert DiscoverMembers(e, p, 1) == [];
  }

  /** Why `AllFieldsResolve` needs dot-free keys: the key `a.b` of
      `{"a.b": 1}` is discovered as the field `a.b`, which resolution splits
      into `a` and `b` and so never finds. */
  lemma DottedKeyExample()
    ensures GetAllFields(JObject([("a.b", JNum(1))])) == ["a.b"]
    ensures Resolve(JObject([("a.b", JNum(1))]), "a.b").None?
  {
    var v := JObject([("a.b", JNum(1))]);
    assert [] + ["a.b"] == ["a.b"];
    assert Discover(JNum(1), ["a.b"]) == [];
    assert DiscoverMembers(v, [], 1) == [];
    assert Discover(v, []) == [["a.b"]];
    assert Join(".", ["a", "b"]) == "a.b";
    SplitJoin(["a", "b"], '.');
    assert Keys(v.members) == ["a.b"];
    assert Step(v, "a").None?;
  }
}

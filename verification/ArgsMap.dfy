/**
 Syscall and io_uring arguments in the form "arg1=value1,arg2=value2": split at
 commas, drop empty segments, split each segment at its first equals sign, collect
 into a map.
 */
module ArgsMap {
  import opened Common

  /** `split(',')`: always at least one segment. */
  function Split(s: string): (r: seq<string>)
    ensures r != []
  {
    if s == "" then [""]
    else
      var rest := Split(s[1..]);
      if s[0] == ',' then [""] + rest else [[s[0]] + rest[0]] + rest[1..]
  }

  function Join(segs: seq<string>): string {
    if segs == [] then "" else if |segs| == 1 then segs[0] else segs[0] + "," + Join(segs[1..])
  }

  /** `split_once('=')`: key and value around the first equals sign. */
  function SplitOnce(s: string): Option<(string, string)> {
    if s == "" then None
    else if s[0] == '=' then Some(("", s[1..]))
    else match SplitOnce(s[1..])
      case None => None
      case Some((k, v)) => Some(([s[0]] + k, v))
  }

  /** Filter, map and collect: the first malformed segment fails the whole, a later key replaces an earlier one. */
  function ParseSegments(segs: seq<string>): Option<map<string, string>> {
    if segs == [] then Some(map[])
    else
      var n := |segs| - 1;
      match ParseSegments(segs[..n])
      case None => None
      case Some(m) =>
        if segs[n] == "" then Some(m)
        else match SplitOnce(segs[n])
          case None => None
          case Some((k, v)) => Some(m[k := v])
  }

  /** `deserialize_args`, on the string it is given. */
  function ParseArgs(s: string): Option<map<string, string>> {
    ParseSegments(Split(s))
  }

  // ----- splitting

  /** Splitting loses nothing and leaves no comma behind. */
  lemma {:induction false} JoinOfSplit(s: string)
    ensures Join(Split(s)) == s
    ensures forall i :: 0 <= i < |Split(s)| ==> ',' !in Split(s)[i]
  {
    if s != "" {
      JoinOfSplit(s[1..]);
      var rest := Split(s[1..]);
      if s[0] == ',' {
        assert Split(s)[1..] == rest;
        assert s == "" + "," + s[1..];
      } else {
        assert Split(s)[1..] == rest[1..];
        assert s == [s[0]] + s[1..];
        if |rest| > 1 {
          assert [s[0]] + (rest[0] + "," + Join(rest[1..])) == ([s[0]] + rest[0]) + "," + Join(rest[1..]);
        }
      }
    }
  }

  lemma {:induction false} SplitFirst(seg: string, s: string)
    requires ',' !in seg
    ensures Split(seg + "," + s) == [seg] + Split(s)
  {
    var t := seg + "," + s;
    if seg == "" {
      assert t[1..] == s;
    } else {
      assert t[1..] == seg[1..] + "," + s;
      SplitFirst(seg[1..], s);
      assert [seg[0]] + seg[1..] == seg;
    }
  }

  lemma {:induction false} SplitOne(seg: string)
    requires ',' !in seg
    ensures Split(seg) == [seg]
  {
    if seg != "" {
      SplitOne(seg[1..]);
      assert [seg[0]] + seg[1..] == seg;
    }
  }

  /** Joining comma-free segments and splitting gives the segments back. */
  lemma {:induction false} SplitOfJoin(segs: seq<string>)
    requires segs != [] && forall i :: 0 <= i < |segs| ==> ',' !in segs[i]
    ensures Split(Join(segs)) == segs
  {
    if |segs| == 1 {
      SplitOne(segs[0]);
    } else {
      SplitOfJoin(segs[1..]);
      SplitFirst(segs[0], Join(segs[1..]));
      assert [segs[0]] + segs[1..] == segs;
    }
  }

  /** The split is at the first equals sign, and there is one exactly when the segment contains it. */
  lemma {:induction false} SplitOnceMeaning(s: string)
    ensures SplitOnce(s).Some? <==> '=' in s
    ensures SplitOnce(s).Some? ==>
              var (k, v) := SplitOnce(s).value;
              '=' !in k && s == k + "=" + v
  {
    if s != "" && s[0] != '=' {
      SplitOnceMeaning(s[1..]);
      if SplitOnce(s[1..]).Some? {
        var (k, v) := SplitOnce(s[1..]).value;
        assert s == [s[0]] + s[1..];
        assert [s[0]] + (k + "=" + v) == ([s[0]] + k) + "=" + v;
      }
    } else if s != "" {
      assert s == "" + "=" + s[1..];
    }
  }

  lemma {:induction false} SplitOnceOf(k: string, v: string)
    requires '=' !in k
    ensures SplitOnce(k + "=" + v) == Some((k, v))
  {
    var s := k + "=" + v;
    if k == "" {
      assert s[1..] == v;
    } else {
      assert s[1..] == k[1..] + "=" + v;
      SplitOnceOf(k[1..], v);
      assert [k[0]] + k[1..] == k;
    }
  }

  // ----- arbitrary input

  predicate Malformed(seg: string) {
    seg != "" && '=' !in seg
  }

  predicate SomeMalformed(segs: seq<string>) {
    exists i :: 0 <= i < |segs| && Malformed(segs[i])
  }

  lemma {:induction false} CollectFails(segs: seq<string>)
    ensures ParseSegments(segs).None? <==> SomeMalformed(segs)
  {
    if segs != [] {
      var n := |segs| - 1;
      CollectFails(segs[..n]);
      SplitOnceMeaning(segs[n]);
      assert forall i :: 0 <= i < n ==> segs[..n][i] == segs[i];
    }
  }

  /** Parsing fails exactly when some non-empty segment has no equals sign. */
  lemma ParseFails(s: string)
    ensures ParseArgs(s).None? <==> SomeMalformed(Split(s))
  {
    CollectFails(Split(s));
  }

  predicate HasKey(seg: string, k: string) {
    seg != "" && SplitOnce(seg).Some? && SplitOnce(seg).value.0 == k
  }

  predicate SomeWith(segs: seq<string>, k: string) {
    exists i :: 0 <= i < |segs| && HasKey(segs[i], k)
  }

  /** Segment i is the last one with key k. */
  ghost predicate LastWith(segs: seq<string>, i: nat, k: string) {
    i < |segs| && HasKey(segs[i], k) && forall j :: i < j < |segs| ==> !HasKey(segs[j], k)
  }

  lemma {:induction false} CollectLookup(segs: seq<string>, k: string)
    requires ParseSegments(segs).Some?
    ensures k in ParseSegments(segs).value <==> SomeWith(segs, k)
    ensures forall i: nat :: LastWith(segs, i, k) ==>
              k in ParseSegments(segs).value && ParseSegments(segs).value[k] == SplitOnce(segs[i]).value.1
  {
    if segs != [] {
      var n := |segs| - 1;
      var front := segs[..n];
      CollectLookup(front, k);
      assert forall i :: 0 <= i < n ==> front[i] == segs[i];
      forall i: nat | LastWith(segs, i, k)
        ensures k in ParseSegments(segs).value && ParseSegments(segs).value[k] == SplitOnce(segs[i]).value.1
      {
        if i < n {
          assert !HasKey(segs[n], k);
          assert LastWith(front, i, k);
        }
      }
      if k in ParseSegments(segs).value && !HasKey(segs[n], k) {
        assert k in ParseSegments(front).value;
      }
    }
  }

  /** Each key gets the value of its last segment, and no other keys appear. */
  lemma ParseLookup(s: string, k: string)
    requires ParseArgs(s).Some?
    ensures k in ParseArgs(s).value <==> SomeWith(Split(s), k)
    ensures forall i: nat :: LastWith(Split(s), i, k) ==>
              k in ParseArgs(s).value && ParseArgs(s).value[k] == SplitOnce(Split(s)[i]).value.1
  {
    CollectLookup(Split(s), k);
  }

  // ----- rendering

  /** An entry, or an extra comma. */
  type Item = Option<(string, string)>

  predicate Renderable(e: Item) {
    e.Some? ==> ',' !in e.value.0 && '=' !in e.value.0 && ',' !in e.value.1
  }

  function Segment(e: Item): string {
    if e.None? then "" else e.value.0 + "=" + e.value.1
  }

  function Segments(es: seq<Item>): (r: seq<string>)
    ensures |r| == |es| && forall i :: 0 <= i < |es| ==> r[i] == Segment(es[i])
  {
    seq(|es|, i requires 0 <= i < |es| => Segment(es[i]))
  }

  function Render(es: seq<Item>): string {
    Join(Segments(es))
  }

  /** What the items list, later ones replacing earlier ones. */
  function Listed(es: seq<Item>): map<string, string> {
    if es == [] then map[]
    else
      var n := |es| - 1;
      if es[n].None? then Listed(es[..n]) else Listed(es[..n])[es[n].value.0 := es[n].value.1]
  }

  lemma {:induction false} CollectSegments(es: seq<Item>)
    requires forall i :: 0 <= i < |es| ==> Renderable(es[i])
    ensures ParseSegments(Segments(es)) == Some(Listed(es))
  {
    if es != [] {
      var n := |es| - 1;
      CollectSegments(es[..n]);
      assert Segments(es)[..n] == Segments(es[..n]);
      if es[n].Some? {
        SplitOnceOf(es[n].value.0, es[n].value.1);
      }
    }
  }

  /** Rendering any items, with any number of extra commas, and parsing gives what they list. */
  lemma RenderParse(es: seq<Item>)
    requires forall i :: 0 <= i < |es| ==> Renderable(es[i])
    ensures ParseArgs(Render(es)) == Some(Listed(es))
  {
    CollectSegments(es);
    if es == [] {
      assert Render(es) == "";
      assert Split("")[..0] == [];
      assert ParseSegments([""]) == Some(map[]);
    } else {
      forall i | 0 <= i < |es|
        ensures ',' !in Segments(es)[i]
      {
        assert Renderable(es[i]);
      }
      SplitOfJoin(Segments(es));
    }
  }

  /** The items list the map m: only its entries, and all of them. */
  ghost predicate Lists(es: seq<Item>, m: map<string, string>) {
    && (forall i :: 0 <= i < |es| && es[i].Some? ==> es[i].value.0 in m && m[es[i].value.0] == es[i].value.1)
    && (forall k :: k in m ==> Some((k, m[k])) in es)
  }

  lemma {:induction false} ListedBy(es: seq<Item>, m: map<string, string>)
    requires forall i :: 0 <= i < |es| && es[i].Some? ==> es[i].value.0 in m && m[es[i].value.0] == es[i].value.1
    ensures forall k :: k in Listed(es) <==> k in m && Some((k, m[k])) in es
    ensures forall k :: k in Listed(es) ==> Listed(es)[k] == m[k]
  {
    if es != [] {
      var n := |es| - 1;
      ListedBy(es[..n], m);
      assert es == es[..n] + [es[n]];
    }
  }

  /** A map, its entries rendered in any order and with any extra commas, parses back to itself. */
  lemma RoundTrip(es: seq<Item>, m: map<string, string>)
    requires (forall i :: 0 <= i < |es| ==> Renderable(es[i])) && Lists(es, m)
    ensures ParseArgs(Render(es)) == Some(m)
  {
    RenderParse(es);
    ListedBy(es, m);
    assert Listed(es) == m;
  }
}

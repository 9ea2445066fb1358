/**
 The part of smoltcp's SocketSet the client relies on.  A set is a vector of
 slots and a handle is a slot number.  `add` fills the first empty slot or
 appends one, `iter` lists the live handles in slot order, and `remove` is
 only defined for a live handle (the library panics on any other).
 */
module SocketTable {
  import opened Common

  type Handle = nat

  /** Which code path opened the connection. */
  datatype Origin = Static | Dynamic

  /** An open connection, known by the index its local endpoint was computed from. */
  datatype Socket = Socket(index: nat, origin: Origin)

  type Table = seq<Option<Socket>>

  predicate Live(t: Table, h: int) {
    0 <= h < |t| && t[h].Some?
  }

  function LiveSet(t: Table): set<Handle> {
    set h: Handle | h < |t| && Live(t, h)
  }

  function OriginSet(t: Table, o: Origin): set<Handle> {
    set h: Handle | h < |t| && Live(t, h) && t[h].value.origin == o
  }

  /** The live handles in iteration order. */
  function Handles(t: Table): (hs: seq<Handle>)
    ensures forall h :: h in hs <==> Live(t, h)
    ensures forall i, j :: 0 <= i < j < |hs| ==> hs[i] < hs[j]
  {
    if t == [] then []
    else
      var n := |t| - 1;
      var front := Handles(t[..n]);
      assert forall h :: Live(t[..n], h) <==> Live(t, h) && h < n;
      assert forall i :: 0 <= i < |front| ==> front[i] in front;
      assert forall h :: h in front ==> Live(t[..n], h) && h < n;
      if t[n].Some? then front + [n] else front
  }

  /** Iteration meets every live socket exactly once. */
  lemma HandlesCount(t: Table)
    ensures |Handles(t)| == |LiveSet(t)|
  {
    var hs := Handles(t);
    DistinctSize(hs);
    assert Elements(hs) == LiveSet(t);
  }

  /** The live handles below a given one. */
  function LiveBelow(t: Table, n: Handle): set<Handle> {
    set h: Handle | h < n && h in LiveSet(t)
  }

  /** The first i handles are the live ones below the next. */
  lemma FirstHandles(t: Table, i: nat)
    requires i < |Handles(t)|
    ensures Elements(Handles(t)[..i]) == LiveBelow(t, Handles(t)[i])
  {
    var hs := Handles(t);
    forall h: Handle
      ensures h in hs[..i] <==> h < hs[i] && h in LiveSet(t)
    {
      if h in hs[..i] {
        var k :| 0 <= k < i && hs[k] == h;
        assert hs[k] in hs;
      }
      if h in LiveSet(t) && h < hs[i] {
        assert h in hs;
        var k :| 0 <= k < |hs| && hs[k] == h;
        assert k < i && hs[..i][k] == h;
      }
    }
  }

  /** The i-th handle is live, and exactly i live ones come before it. */
  lemma NthHandle(t: Table, i: nat)
    requires i < |Handles(t)|
    ensures Live(t, Handles(t)[i]) && |LiveBelow(t, Handles(t)[i])| == i
  {
    assert Handles(t)[i] in Handles(t);
    FirstHandles(t, i);
    DistinctSize(Handles(t)[..i]);
  }

  /** The slot `add` uses: the lowest handle that is not live. */
  function FirstFree(t: Table): (h: Handle)
    ensures h <= |t| && !Live(t, h)
    ensures forall k :: 0 <= k < h ==> Live(t, k)
  {
    if t == [] then 0
    else
      var n := |t| - 1;
      var h := FirstFree(t[..n]);
      assert forall k :: 0 <= k < h ==> Live(t[..n], k) && Live(t, k);
      if h == n && t[n].Some? then |t| else h
  }

  function Add(t: Table, s: Socket): Table {
    var h := FirstFree(t);
    if h == |t| then t + [Some(s)] else t[h := Some(s)]
  }

  function Remove(t: Table, h: Handle): Table
    requires Live(t, h)
  {
    t[h := None]
  }

  /** Empties every slot named in `gone`. */
  function Clear(t: Table, gone: set<Handle>): (r: Table)
    ensures |r| == |t|
  {
    seq(|t|, i requires 0 <= i < |t| => if i in gone then None else t[i])
  }

  /** Adding makes exactly one more handle live and disturbs no other socket. */
  lemma AddEffect(t: Table, s: Socket)
    ensures var h := FirstFree(t);
            && LiveSet(Add(t, s)) == LiveSet(t) + {h}
            && h !in LiveSet(t)
            && Add(t, s)[h] == Some(s)
            && (forall k :: Live(t, k) ==> Live(Add(t, s), k) && Add(t, s)[k] == t[k])
            && (forall k :: Live(Add(t, s), k) ==> k == h || Live(t, k))
  {
    var h := FirstFree(t);
    var t' := Add(t, s);
    assert forall k :: Live(t', k) <==> Live(t, k) || k == h;
  }

  /** Adding extends the sockets of its own origin and no others. */
  lemma AddOrigins(t: Table, s: Socket, o: Origin)
    ensures OriginSet(Add(t, s), o) == OriginSet(t, o) + (if s.origin == o then {FirstFree(t)} else {})
    ensures FirstFree(t) !in OriginSet(t, o)
  {
    AddEffect(t, s);
    var t' := Add(t, s);
    forall k: Handle
      ensures k in OriginSet(t', o) <==> k in OriginSet(t, o) || (k == FirstFree(t) && s.origin == o)
    {
      if k == FirstFree(t) {
        assert Live(t', k);
      } else if Live(t, k) {
        assert t'[k] == t[k];
      } else {
        assert !Live(t', k);
      }
    }
  }

  /** The table grows only when every slot is taken. */
  lemma AddLength(t: Table, s: Socket)
    ensures |t| <= |Add(t, s)|
    ensures |Add(t, s)| > |t| ==> |LiveSet(t)| == |t| && |Add(t, s)| == |t| + 1
  {
    if FirstFree(t) == |t| {
      AllLive(t);
    }
  }

  lemma {:induction false} AllLive(t: Table)
    requires forall k :: 0 <= k < |t| ==> Live(t, k)
    ensures |LiveSet(t)| == |t|
  {
    if t != [] {
      var n := |t| - 1;
      assert forall k :: 0 <= k < n ==> Live(t, k) && t[..n][k] == t[k];
      AllLive(t[..n]);
      assert Live(t, n);
      assert LiveSet(t) == LiveSet(t[..n]) + {n};
    }
  }

  /** Clearing removes exactly the named handles. */
  lemma ClearEffect(t: Table, gone: set<Handle>)
    ensures LiveSet(Clear(t, gone)) == LiveSet(t) - gone
    ensures forall o :: OriginSet(Clear(t, gone), o) == OriginSet(t, o) - gone
    ensures forall k :: Live(t, k) && k !in gone ==> Live(Clear(t, gone), k) && Clear(t, gone)[k] == t[k]
    ensures forall k :: Live(Clear(t, gone), k) ==> Live(t, k) && k !in gone && Clear(t, gone)[k] == t[k]
  {
  }

  /** Every live socket is static or dynamic, and not both. */
  lemma OriginSplit(t: Table)
    ensures LiveSet(t) == OriginSet(t, Static) + OriginSet(t, Dynamic)
    ensures OriginSet(t, Static) !! OriginSet(t, Dynamic)
    ensures |LiveSet(t)| == |OriginSet(t, Static)| + |OriginSet(t, Dynamic)|
  {
    forall h | h in LiveSet(t)
      ensures h in OriginSet(t, Static) + OriginSet(t, Dynamic)
    {
      match t[h].value.origin
      case Static =>
      case Dynamic =>
    }
    assert LiveSet(t) == OriginSet(t, Static) + OriginSet(t, Dynamic);
  }

  lemma OriginIsLive(t: Table, o: Origin)
    ensures forall h :: h in OriginSet(t, o) ==> Live(t, h) && t[h].value.origin == o
  {
  }
}

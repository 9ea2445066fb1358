/**
 Names of the BPF programs: "berserker" and a number, copied over one 16-byte
 buffer that is never cleared in between.
 */
module BpfNames {
  import opened Common
  import opened Decimal

  const NAME_LEN: nat := 16

  function FullName(i: nat): string {
    "berserker" + Dec(i)
  }

  /** The name a program should get: cut to the buffer, padded with zero bytes. */
  function ProgName(i: nat): (s: string)
    ensures |s| == NAME_LEN
  {
    var full := FullName(i);
    seq(NAME_LEN, k requires 0 <= k => if k < |full| then full[k] else '\0')
  }

  /** The first 16 bytes of "berserker", the number in decimal, and zero bytes. */
  lemma NameIs(i: nat)
    ensures ProgName(i) == ("berserker" + Dec(i) + "\0\0\0\0\0\0\0\0\0\0\0\0\0\0\0\0")[..16]
  {
    var zeros := "\0\0\0\0\0\0\0\0\0\0\0\0\0\0\0\0";
    assert |zeros| == 16;
    forall k | 0 <= k < 16
      ensures (FullName(i) + zeros)[k] == if k < |FullName(i)| then FullName(i)[k] else '\0'
    {
      assert k >= |FullName(i)| ==> (FullName(i) + zeros)[k] == zeros[k - |FullName(i)|];
    }
  }

  /** The name of the second program. */
  lemma SecondName()
    ensures ProgName(1) == "berserker1\0\0\0\0\0\0"
  {
    DecWritten(1);
    NameIs(1);
    assert "0123456789"[1] == '1';
  }

  /** Copies as much of the text as fits over the front of the buffer. */
  method Overlay(name: array<char>, text: string)
    requires name.Length == NAME_LEN
    modifies name
    ensures forall k :: 0 <= k < NAME_LEN ==> name[k] == if k < |text| then text[k] else old(name[k])
  {
    var len := if NAME_LEN < |text| then NAME_LEN else |text|;
    for i := 0 to len
      invariant forall k :: 0 <= k < NAME_LEN ==> name[k] == if k < i then text[k] else old(name[k])
    {
      name[i] := text[i];
    }
  }

  /** A longer name leaves nothing of the shorter one before it. */
  lemma NextName(i: nat, k: nat)
    requires k < NAME_LEN && k >= |FullName(i + 1)|
    ensures ProgName(i)[k] == '\0'
  {
    DecLengthMonotone(i, i + 1);
  }

  /** The naming loop: although the buffer is reused, every program gets exactly its own name. */
  method NamePrograms(nprogs: nat) returns (names: seq<string>)
    ensures |names| == nprogs
    ensures forall i :: 0 <= i < nprogs ==> names[i] == ProgName(i)
  {
    var name := new char[NAME_LEN](_ => '\0');
    names := [];
    for i := 0 to nprogs
      invariant |names| == i && forall j :: 0 <= j < i ==> names[j] == ProgName(j)
      invariant forall k :: 0 <= k < NAME_LEN ==> name[k] == if i == 0 then '\0' else ProgName(i - 1)[k]
    {
      if i > 0 {
        forall k: nat | |FullName(i)| <= k < NAME_LEN
          ensures name[k] == '\0'
        {
          NextName(i - 1, k);
        }
      }
      Overlay(name, FullName(i));
      assert name[..] == ProgName(i);
      names := names + [name[..]];
    }
  }

  lemma Powers()
    ensures Pow10(6) == 1_000_000 && Pow10(7) == 10_000_000
  {
    assert Pow10(2) == 100 && Pow10(3) == 1000 && Pow10(4) == 10_000 && Pow10(5) == 100_000;
  }

  lemma SevenDigits(i: nat)
    ensures |Dec(i)| <= 7 <==> i < 10_000_000
    ensures |Dec(i)| <= 6 <==> i < 1_000_000
  {
    Powers();
    DecLength(i, 7);
    DecLength(i, 6);
  }

  /** A byte of a zero-padded text. */
  function ByteAt(s: string, k: nat): char {
    if k < |s| then s[k] else '\0'
  }

  lemma NotLonger(a: string, b: string)
    requires AllDigits(a) && |a| <= 7 && forall k: nat :: k < 7 ==> ByteAt(a, k) == ByteAt(b, k)
    ensures |a| <= |b|
  {
    var k := |b|;
    assert k < |a| ==> ByteAt(a, k) == ByteAt(b, k) && IsDigit(a[k]);
  }

  /** A name that fits is the full name, recoverable from the buffer. */
  lemma NameDetermines(i: nat, j: nat)
    requires |Dec(i)| <= 7 && |Dec(j)| <= 7 && ProgName(i) == ProgName(j)
    ensures i == j
  {
    var a, b := Dec(i), Dec(j);
    forall k: nat | k < 7
      ensures ByteAt(a, k) == ByteAt(b, k)
    {
      assert ProgName(i)[9 + k] == ProgName(j)[9 + k];
    }
    NotLonger(a, b);
    NotLonger(b, a);
    assert forall k :: 0 <= k < |a| ==> a[k] == ByteAt(a, k) == ByteAt(b, k);
    assert a == b;
    DecInjective(i, j);
  }

  /** The zero byte that ends the string is there exactly for the first million programs. */
  lemma Terminated(i: nat)
    ensures '\0' in ProgName(i) <==> i < 1_000_000
  {
    SevenDigits(i);
    var s, full := ProgName(i), FullName(i);
    if i < 1_000_000 {
      assert s[15] == '\0';
    } else {
      forall k | 0 <= k < NAME_LEN
        ensures s[k] != '\0'
      {
        assert s[k] == full[k];
        if k >= 9 {
          assert full[k] == Dec(i)[k - 9] && IsDigit(Dec(i)[k - 9]);
        }
      }
    }
  }

  /** The names of n programs are pairwise different exactly when n is at most ten million. */
  lemma NamesDistinct(n: nat)
    ensures (forall i: nat, j: nat :: i < j < n ==> ProgName(i) != ProgName(j)) <==> n <= 10_000_000
  {
    if n <= 10_000_000 {
      forall i: nat, j: nat | i < j < n
        ensures ProgName(i) != ProgName(j)
      {
        SevenDigits(i);
        SevenDigits(j);
        if ProgName(i) == ProgName(j) {
          NameDetermines(i, j);
        }
      }
    } else {
      Collision();
    }
  }

  /** The first collision: the name of program 10000000 is cut to that of program 1000000. */
  lemma Collision()
    ensures ProgName(1_000_000) == ProgName(10_000_000)
  {
    var a, b := Dec(1_000_000), Dec(10_000_000);
    assert b == a + [Digit(0)];
    SevenDigits(1_000_000);
    SevenDigits(10_000_000);
    assert |a| == 7;
  }
}

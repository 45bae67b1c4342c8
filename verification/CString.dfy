/** Zero-terminated strings in a fixed buffer, and bounded appending to them. */
module CString {

  predicate Terminated(a: seq<char>) {
    exists i :: 0 <= i < |a| && a[i] == '\0'
  }

  predicate NoZero(s: string) {
    forall i :: 0 <= i < |s| ==> s[i] != '\0'
  }

  /** The string a buffer holds: what comes before its first zero. */
  function CStr(a: seq<char>): string {
    if a == [] || a[0] == '\0' then [] else [a[0]] + CStr(a[1..])
  }

  lemma {:induction false} CStrUpTo(a: seq<char>, k: nat)
    requires k < |a| && a[k] == '\0' && NoZero(a[..k])
    ensures CStr(a) == a[..k]
  {
    if k > 0 {
      assert a[..k][0] == a[0];
      assert forall i :: 0 <= i < k - 1 ==> a[1..][i] == a[..k][i + 1];
      CStrUpTo(a[1..], k - 1);
      assert a[..k] == [a[0]] + a[1..][..k - 1];
    }
  }

  method StrLen(buf: array<char>) returns (k: nat)
    requires Terminated(buf[..])
    ensures k < buf.Length && buf[k] == '\0' && NoZero(buf[..k])
    ensures CStr(buf[..]) == buf[..k]
  {
    k := 0;
    while buf[k] != '\0'
      invariant 0 <= k < buf.Length
      invariant NoZero(buf[..k])
      invariant exists i :: k <= i < buf.Length && buf[i] == '\0'
      decreases buf.Length - k
    {
      assert buf[..k + 1] == buf[..k] + [buf[k]];
      k := k + 1;
    }
    CStrUpTo(buf[..], k);
    assert buf[..][..k] == buf[..k];
  }

  /** What the buffer holds once n characters and a terminator are in place. */
  lemma Appended(a: seq<char>, k: nat, before: string, added: string)
    requires k + |added| < |a| && a[k + |added|] == '\0'
    requires a[..k] == before && a[k..k + |added|] == added
    requires NoZero(before) && NoZero(added)
    ensures Terminated(a) && CStr(a) == before + added
  {
    assert a[..k + |added|] == before + added;
    CStrUpTo(a, k + |added|);
  }

  /** strncat_s: append n characters of src from position `from` on, if they and
      the terminator fit; otherwise report that and empty the string. */
  method StrNCat(buf: array<char>, src: string, from: nat, n: nat) returns (fits: bool)
    requires from + n <= |src| && NoZero(src) && Terminated(buf[..])
    modifies buf
    ensures Terminated(buf[..])
    ensures fits <==> |old(CStr(buf[..]))| + n < buf.Length
    ensures CStr(buf[..]) == if fits then old(CStr(buf[..])) + src[from..from + n] else ""
  {
    var k := StrLen(buf);
    ghost var before := buf[..k];
    fits := k + n < buf.Length;
    if fits {
      for j := 0 to n
        invariant buf[..k] == before
        invariant forall i :: k <= i < k + j ==> buf[i] == src[from + i - k]
      {
        buf[k + j] := src[from + j];
      }
      buf[k + n] := '\0';
      assert buf[..k] == before;
      assert buf[..][k..k + n] == src[from..from + n];
      Appended(buf[..], k, before, src[from..from + n]);
    } else {
      buf[0] := '\0';
      CStrUpTo(buf[..], 0);
    }
  }
}

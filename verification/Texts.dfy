/** Error texts as they are kept: on one line, trimmed, and cut (the sanitize_error functions). */
module Texts {
  import Seqs

  /** str.strip removes these at both ends. */
  predicate IsSpace(c: char) {
    var n := c as int;
    || 0x09 <= n <= 0x0D || 0x1C <= n <= 0x20 || n == 0x85 || n == 0xA0 || n == 0x1680
    || 0x2000 <= n <= 0x200A || n == 0x2028 || n == 0x2029 || n == 0x202F || n == 0x205F || n == 0x3000
  }

  function OneLine(s: string): (line: string)
    ensures |line| == |s|
    ensures forall i :: 0 <= i < |s| ==> line[i] == if s[i] == '\n' || s[i] == '\r' then ' ' else s[i]
  {
    seq(|s|, i requires 0 <= i < |s| => if s[i] == '\n' || s[i] == '\r' then ' ' else s[i])
  }

  function TrimLeft(s: string): string {
    if s != "" && IsSpace(s[0]) then TrimLeft(s[1..]) else s
  }

  function TrimRight(s: string): string {
    if s != "" && IsSpace(s[|s| - 1]) then TrimRight(s[..|s| - 1]) else s
  }

  function Trim(s: string): string {
    TrimRight(TrimLeft(s))
  }

  function Cut(s: string, most: nat): string {
    if |s| <= most then s else s[..most]
  }

  function Sanitized(s: string, most: nat): string {
    Cut(Trim(OneLine(s)), most)
  }

  /** Nothing but space is removed on the left, and all of it. */
  lemma {:induction false} TrimLeftKeeps(s: string) returns (k: nat)
    ensures k <= |s| && TrimLeft(s) == s[k..] && (forall i :: 0 <= i < k ==> IsSpace(s[i]))
    ensures k < |s| ==> !IsSpace(s[k])
  {
    if s != "" && IsSpace(s[0]) {
      var rest := TrimLeftKeeps(s[1..]);
      k := rest + 1;
      forall i | 0 <= i < k
        ensures IsSpace(s[i])
      {
        assert i > 0 ==> s[i] == s[1..][i - 1];
      }
    } else {
      k := 0;
    }
  }

  lemma {:induction false} TrimRightKeeps(s: string) returns (k: nat)
    ensures k <= |s| && TrimRight(s) == s[..k] && (forall i :: k <= i < |s| ==> IsSpace(s[i]))
    ensures k > 0 ==> !IsSpace(s[k - 1])
  {
    if s != "" && IsSpace(s[|s| - 1]) {
      k := TrimRightKeeps(s[..|s| - 1]);
      assert s[..|s| - 1][..k] == s[..k];
    } else {
      k := |s|;
    }
  }

  lemma SpaceInLine(s: string)
    ensures forall i :: 0 <= i < |s| ==> (IsSpace(OneLine(s)[i]) <==> IsSpace(s[i]))
  {
  }

  lemma CutTrimKeeps(line: string, most: nat) returns (from: nat, to: nat)
    ensures from <= to <= |line| && Cut(Trim(line), most) == line[from..to] && to - from <= most
    ensures forall i :: 0 <= i < from ==> IsSpace(line[i])
    ensures to - from < most ==> forall i :: to <= i < |line| ==> IsSpace(line[i])
    ensures from < to ==> !IsSpace(line[from])
  {
    from := TrimLeftKeeps(line);
    var k := TrimRightKeeps(line[from..]);
    to := from + if k <= most then k else most;
    Seqs.SliceSlice(line, from, |line|, 0, to - from);
    forall i | from + k <= i < |line|
      ensures IsSpace(line[i])
    {
      assert line[i] == line[from..][i - from];
    }
  }

  /** What is kept is a stretch of the text with its line ends blanked, no longer than allowed; space only
      is dropped before it, and after it too unless it had to be cut. */
  lemma SanitizedIsOneLine(s: string, most: nat) returns (from: nat, to: nat)
    ensures from <= to <= |s| && Sanitized(s, most) == OneLine(s)[from..to] && to - from <= most
    ensures forall i :: 0 <= i < from ==> IsSpace(s[i])
    ensures to - from < most ==> forall i :: to <= i < |s| ==> IsSpace(s[i])
    ensures from < to ==> !IsSpace(s[from])
    ensures forall c :: c in Sanitized(s, most) ==> c != '\n' && c != '\r'
  {
    from, to := CutTrimKeeps(OneLine(s), most);
    SpaceInLine(s);
    assert forall c :: c in OneLine(s)[from..to] ==> c in OneLine(s);
  }
}

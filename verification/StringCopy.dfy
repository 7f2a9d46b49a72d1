/** `os_string_copy`: `strlcpy` bounded by the length of the string that the
    destination holds already. */
module StringCopy {

  const NUL: char := '\0'

  /** strlen: the index of the first terminator. */
  function StrLen(buffer: seq<char>): (n: nat)
    requires NUL in buffer
    ensures n < |buffer| && buffer[n] == NUL && forall i :: 0 <= i < n ==> buffer[i] != NUL
  {
    if buffer[0] == NUL then 0 else 1 + StrLen(buffer[1..])
  }

  function Text(buffer: seq<char>): string
    requires NUL in buffer
  {
    buffer[..StrLen(buffer)]
  }

  function Min(a: nat, b: nat): nat { if a < b then a else b }

  /** Stores at most size - 1 characters and a terminator; nothing for size 0. */
  method Strlcpy(dst: array<char>, src: string, size: nat)
    requires size <= dst.Length
    modifies dst
    ensures size == 0 ==> dst[..] == old(dst[..])
    ensures size > 0 ==> var n := Min(size - 1, |src|);
      forall j :: 0 <= j < dst.Length ==>
        dst[j] == if j < n then src[j] else if j == n then NUL else old(dst[j])
  {
    if size == 0 { return; }
    var i := 0;
    while i < size - 1 && i < |src|
      invariant 0 <= i <= Min(size - 1, |src|)
      invariant forall j :: 0 <= j < dst.Length ==> dst[j] == if j < i then src[j] else old(dst[j])
    {
      dst[i] := src[i];
      i := i + 1;
    }
    dst[i] := NUL;
  }

  /** What one copy leaves in a buffer that held `text`. */
  function Copied(text: string, src: string): string
  {
    if text == "" then "" else src[..Min(|text| - 1, |src|)]
  }

  /** Nothing at or after the old terminator is written. */
  method OsStringCopy(dst: array<char>, src: string)
    requires NUL in dst[..] && NUL !in src
    modifies dst
    ensures NUL in dst[..] && Text(dst[..]) == Copied(old(Text(dst[..])), src)
    ensures Text(dst[..]) <= src
    ensures old(Text(dst[..])) == "" ==> |Text(dst[..])| == 0
    ensures old(Text(dst[..])) != "" ==>
      var room := |old(Text(dst[..]))| - 1;
      |Text(dst[..])| == if |src| <= room then |src| else room
    ensures dst[old(StrLen(dst[..]))..] == old(dst[StrLen(dst[..])..])
  {
    var hack := StrLen(dst[..]);
    Strlcpy(dst, src, hack);
    if hack > 0 { TextOf(dst[..], src, Min(hack - 1, |src|)); } else { assert Text(dst[..]) == ""; }
  }

  lemma TextOf(buffer: seq<char>, src: string, n: nat)
    requires NUL !in src && n <= |src| && n < |buffer|
    requires buffer[n] == NUL && forall i :: 0 <= i < n ==> buffer[i] == src[i]
    ensures NUL in buffer && Text(buffer) == src[..n]
  {
    forall i | 0 <= i < n ensures buffer[i] != NUL { assert src[i] in src; }
  }

  /** The whole source arrives exactly when it is shorter than what was there,
      or empty. */
  lemma CopiesAllIff(text: string, src: string)
    ensures Copied(text, src) == src <==> |src| < |text| || src == ""
  {
  }

  function CopiedInTurn(text: string, srcs: seq<string>): string
    decreases |srcs|
  {
    if srcs == [] then text else CopiedInTurn(Copied(text, srcs[0]), srcs[1..])
  }

  /** Each copy loses a character: a sequence of copies ends with the empty
      string exactly when there are at least as many copies as characters, or
      some source is too short for the copies that follow it. */
  lemma {:induction false} EndsEmptyIff(text: string, srcs: seq<string>)
    ensures |CopiedInTurn(text, srcs)| <= if |srcs| < |text| then |text| - |srcs| else 0
    ensures CopiedInTurn(text, srcs) == "" <==>
            |srcs| >= |text| || exists i :: 0 <= i < |srcs| && |srcs[i]| <= |srcs| - 1 - i
    decreases |srcs|
  {
    if srcs != [] {
      var rest := srcs[1..];
      EndsEmptyIff(Copied(text, srcs[0]), rest);
      if i :| 0 <= i < |rest| && |rest[i]| <= |rest| - 1 - i {
        assert srcs[i + 1] == rest[i];
      }
      if i :| 0 <= i < |srcs| && |srcs[i]| <= |srcs| - 1 - i {
        if i > 0 { assert rest[i - 1] == srcs[i]; }
      }
    }
  }
}

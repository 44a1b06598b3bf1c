/** The little that is needed about text. */
module Text {

  /** What trimming removes: blanks, line ends, and the other white space of Unicode. */
  predicate IsSpace(c: char) {
    || '\t' <= c <= '\r' || c == ' ' || c == '\U{00A0}' || c == '\U{1680}' || '\U{2000}' <= c <= '\U{200A}'
    || c == '\U{2028}' || c == '\U{2029}' || c == '\U{202F}' || c == '\U{205F}' || c == '\U{3000}' || c == '\U{FEFF}'
  }

  /** Nothing is left of s once it is trimmed. */
  predicate Blank(s: string) { forall i :: 0 <= i < |s| ==> IsSpace(s[i]) }

  function TrimStart(s: string): string { if s != [] && IsSpace(s[0]) then TrimStart(s[1..]) else s }

  function TrimEnd(s: string): string {
    if s != [] && IsSpace(s[|s| - 1]) then TrimEnd(s[..|s| - 1]) else s
  }

  function Trim(s: string): string { TrimEnd(TrimStart(s)) }

  lemma {:induction false} TrimStartKeeps(s: string)
    ensures Blank(TrimStart(s)) <==> Blank(s)
    decreases |s|
  {
    hide IsSpace;
    if s != [] && IsSpace(s[0]) {
      TrimStartKeeps(s[1..]);
      assert forall i :: 0 < i < |s| ==> s[i] == s[1..][i - 1];
    }
  }

  lemma {:induction false} TrimEndKeeps(s: string)
    ensures Blank(TrimEnd(s)) <==> Blank(s)
    decreases |s|
  {
    hide IsSpace;
    if s != [] && IsSpace(s[|s| - 1]) {
      TrimEndKeeps(s[..|s| - 1]);
    }
  }

  /** Trimming leaves something behind exactly where there is something. */
  lemma TrimKeeps(s: string)
    ensures Blank(Trim(s)) <==> Blank(s)
  {
    TrimStartKeeps(s);
    TrimEndKeeps(TrimStart(s));
  }
}

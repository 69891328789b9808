/** Strings as the Go and JavaScript sources handle them: trimming by a class of white space,
    substring search and decimal numerals. */
module Text {

  /** The characters that Go's unicode.IsSpace accepts. */
  predicate GoSpace(c: char) {
    || '\t' <= c <= '\r' || c == ' ' || c == '\U{0085}' || c == '\U{00A0}' || c == '\U{1680}'
    || '\U{2000}' <= c <= '\U{200A}' || c == '\U{2028}' || c == '\U{2029}' || c == '\U{202F}' || c == '\U{205F}'
    || c == '\U{3000}'
  }

  /** The characters of the JavaScript class `\s`, which are also those String.trim removes. */
  predicate JsSpace(c: char) {
    || '\t' <= c <= '\r' || c == ' ' || c == '\U{00A0}' || c == '\U{1680}'
    || '\U{2000}' <= c <= '\U{200A}' || c == '\U{2028}' || c == '\U{2029}' || c == '\U{202F}' || c == '\U{205F}'
    || c == '\U{3000}' || c == '\U{FEFF}'
  }

  function TrimLeft(s: string, space: char -> bool): string {
    if s != "" && space(s[0]) then TrimLeft(s[1..], space) else s
  }

  function TrimRight(s: string, space: char -> bool): string {
    if s != "" && space(s[|s| - 1]) then TrimRight(s[..|s| - 1], space) else s
  }

  function Trim(s: string, space: char -> bool): string {
    TrimRight(TrimLeft(s, space), space)
  }

  /** len(s) in Go: the number of bytes of the UTF-8 encoding. */
  function ByteLength(s: string): nat {
    if s == "" then 0
    else
      var c := s[0] as int;
      (if c < 0x80 then 1 else if c < 0x800 then 2 else if c < 0x1_0000 then 3 else 4) + ByteLength(s[1..])
  }
}

/** Substring search and the facts about trimming that the rewriter needs. */
module Search {
  import opened Text

  predicate StartsWith(s: string, sub: string) { |sub| <= |s| && s[..|sub|] == sub }

  /** s.indexOf(sub), or |s| + 1 when there is no occurrence. */
  function Find(s: string, sub: string): (i: nat)
    ensures i <= |s| ==> StartsWith(s[i..], sub)
    ensures forall j | 0 <= j < i && j <= |s| :: !StartsWith(s[j..], sub)
    ensures i <= |s| + 1
  {
    if StartsWith(s, sub) then 0 else if s == "" then 1 else
      var r := Find(s[1..], sub);
      assert forall j | 0 < j <= |s| :: s[1..][j - 1..] == s[j..];
      r + 1
  }

  predicate Contains(s: string, sub: string) { Find(s, sub) <= |s| }

  lemma ContainsAt(s: string, sub: string, i: nat)
    requires i <= |s| && StartsWith(s[i..], sub)
    ensures Contains(s, sub) && Find(s, sub) <= i
  {}

  function UpTo(s: string, marker: string): string {
    if Contains(s, marker) then s[..Find(s, marker)] else s
  }

  /** s.split(marker, 2)[1]: what stands between the first and the second occurrence. */
  function Between(s: string, marker: string): string
    requires Contains(s, marker)
  {
    UpTo(s[Find(s, marker) + |marker|..], marker)
  }

  /** The white space a line starts with. */
  function Indent(line: string): string {
    if line != "" && JsSpace(line[0]) then [line[0]] + Indent(line[1..]) else ""
  }
}

/** The lines of a kustomization file, described as the regular expressions of the scripts read them. */
module LineForms {
  import opened Wrappers
  import opened Text
  import opened Search
  import opened Lines
  import opened ImageRewriter
  import opened RewrittenLines

  predicate Blank(s: string) { forall i | 0 <= i < |s| :: JsSpace(s[i]) }

  // ---------- the line that opens a block ----------

  lemma {:induction false} TrimLeftParts(s: string) returns (x: string)
    ensures Blank(x) && s == x + TrimLeft(s, JsSpace)
    ensures var t := TrimLeft(s, JsSpace); t != "" ==> !JsSpace(t[0])
    decreases |s|
  {
    x := "";
    if s != "" && JsSpace(s[0]) {
      var rest := TrimLeftParts(s[1..]);
      x := [s[0]] + rest;
      assert s == [s[0]] + s[1..];
    }
  }

  lemma {:induction false} TrimRightParts(s: string) returns (y: string)
    ensures Blank(y) && s == TrimRight(s, JsSpace) + y
    decreases |s|
  {
    y := "";
    if s != "" && JsSpace(s[|s| - 1]) {
      var rest := TrimRightParts(s[..|s| - 1]);
      y := rest + [s[|s| - 1]];
      assert s == s[..|s| - 1] + [s[|s| - 1]];
    }
  }

  lemma {:induction false} TrimRightBlank(s: string, y: string)
    requires Blank(y) && s != "" && !JsSpace(s[|s| - 1])
    ensures TrimRight(s + y, JsSpace) == s
    decreases |y|
  {
    if y == "" {
      assert s + y == s;
    } else {
      assert (s + y)[..|s + y| - 1] == s + y[..|y| - 1];
      TrimRightBlank(s, y[..|y| - 1]);
    }
  }

  lemma TrimBetweenBlanks(x: string, s: string, y: string)
    requires Blank(x) && Blank(y) && s != "" && !JsSpace(s[0]) && !JsSpace(s[|s| - 1])
    ensures Trim(x + s + y, JsSpace) == s
  {
    assert x + s + y == x + (s + y);
    TrimLeftSpaces(x, s + y);
    TrimRightBlank(s, y);
  }

  ghost predicate Opens(line: string, c: string, x: string, y: string) {
    Blank(x) && Blank(y) && line == x + "- name: cloudsentinel-" + c + y
  }

  /** The expression of the scripts: a line opens the block of a component exactly if it is "- name: cloudsentinel-"
      and the component, between white space. */
  lemma BlockOfIff(components: seq<string>, line: string, c: string)
    requires c != "" && !JsSpace(c[|c| - 1])
    ensures BlockOf(components, line) == Some(c) <==> c in components && exists x, y :: Opens(line, c, x, y)
  {
    var prefix := "- name: cloudsentinel-";
    if BlockOf(components, line) == Some(c) {
      var t := TrimLeft(line, JsSpace);
      var x := TrimLeftParts(line);
      var y := TrimRightParts(t);
      assert Trim(line, JsSpace) == prefix + c;
      assert x + (prefix + c + y) == x + prefix + c + y;
      assert Opens(line, c, x, y);
    }
    if c in components && exists x, y :: Opens(line, c, x, y) {
      var x, y :| Opens(line, c, x, y);
      var s := prefix + c;
      assert line == x + s + y && s[0] == '-' && s[|s| - 1] == c[|c| - 1];
      TrimBetweenBlanks(x, s, y);
      assert s[|prefix|..] == c;
    }
  }

  /** A digest is "sha256:" and 64 hexadecimal digits in lower case. */
  lemma ValidDigestIff(digest: string)
    ensures ValidDigest(digest) <==> exists hex: string :: digest == "sha256:" + hex && SixtyFour(hex)
  {
    if ValidDigest(digest) {
      var hex := digest[7..];
      assert digest == digest[..7] + hex && digest[..7] == "sha256:";
      forall i | 0 <= i < |hex| ensures hex[i] in "0123456789abcdef" {
        assert Hex(digest[i + 7]);
        HexIsIn(hex[i]);
      }
      assert SixtyFour(hex);
    }
    if hex :| digest == "sha256:" + hex && SixtyFour(hex) {
      forall i | 7 <= i < 71 ensures Hex(digest[i]) {
        assert digest[i] == hex[i - 7];
        HexIsIn(hex[i - 7]);
      }
    }
  }

  ghost predicate SixtyFour(hex: string) { |hex| == 64 && forall i | 0 <= i < |hex| :: hex[i] in "0123456789abcdef" }

  lemma HexIsIn(c: char)
    ensures Hex(c) <==> c in "0123456789abcdef"
  {
    var digits := "0123456789abcdef";
    if '0' <= c <= '9' { assert digits[c as int - '0' as int] == c; }
    if 'a' <= c <= 'f' { assert digits[c as int - 'a' as int + 10] == c; }
  }

  // ---------- the value after a marker ----------

  /** split(marker, 2)[1]: from the first marker to the end of the line, or to the next one. */
  lemma BetweenIs(a: string, marker: string, b: string, c: string)
    requires marker != "" && marker[0] !in a && marker[0] !in b
    ensures Contains(a + marker + b, marker) && Between(a + marker + b, marker) == b
    ensures Contains(a + marker + b + marker + c, marker) && Between(a + marker + b + marker + c, marker) == b
  {
    UpToEnd(a, marker, b);
    UpToNext(a, marker, b, c);
  }

  lemma UpToEnd(a: string, marker: string, b: string)
    requires marker != "" && marker[0] !in a && marker[0] !in b
    ensures Contains(a + marker + b, marker) && Between(a + marker + b, marker) == b
  {
    NeedsChar(b, marker, 0);
    FirstMarker(a, marker, b);
  }

  lemma UpToNext(a: string, marker: string, b: string, c: string)
    requires marker != "" && marker[0] !in a && marker[0] !in b
    ensures Contains(a + marker + b + marker + c, marker) && Between(a + marker + b + marker + c, marker) == b
  {
    var rest := b + marker + c;
    FirstMarker(a, marker, rest);
    FirstMarker(b, marker, c);
    assert UpTo(rest, marker) == b;
    Regrouped(a + marker, b, marker, c);
  }

  lemma Regrouped(front: string, b: string, marker: string, c: string)
    ensures front + b + marker + c == front + (b + marker + c)
  {}

  lemma MarkerInFront(marker: string, rest: string)
    ensures Find(marker + rest, marker) == 0
  {
    assert (marker + rest)[..|marker|] == marker;
  }

  lemma AfterFront(a: string, marker: string, rest: string)
    ensures a + marker + rest == a + (marker + rest) && (a + marker + rest)[|a| + |marker|..] == rest
  {}

  lemma FirstMarker(a: string, marker: string, rest: string)
    requires marker != "" && marker[0] !in a
    ensures var s := a + marker + rest;
      Contains(s, marker) && Find(s, marker) == |a| && s[|a| + |marker|..] == rest
  {
    AfterFront(a, marker, rest);
    MarkerInFront(marker, rest);
    FindAfter(a, marker + rest, marker);
  }

  // ---------- the lines that are rewritten ----------

  lemma {:induction false} IndentIs(line: string)
    ensures Blank(Indent(line)) && Indent(line) <= line
    ensures |Indent(line)| < |line| ==> !JsSpace(line[|Indent(line)|])
    decreases |line|
  {
    if line != "" && JsSpace(line[0]) { IndentIs(line[1..]); }
  }

  /** The rewritten line keeps the white space in front, all of it and nothing else, and has the new value after its
      marker; a line with both markers counts as a name. */
  lemma RewrittenIs(components: seq<string>, images: map<string, Image>, c: string, line: string) returns (x: string)
    requires ValidImages(components, images) && c in components && BlockOf(components, line) == None
    ensures Blank(x) && x <= line && (|x| < |line| ==> !JsSpace(line[|x|]))
    ensures NewLine(components, images, Some(c), line) ==
      if Contains(line, "newName:") then x + "newName: " + images[c].name
      else if Contains(line, "digest:") then x + "digest: " + images[c].digest
      else line
    ensures NextActive(components, Some(c), line)
         == if !Contains(line, "newName:") && Contains(line, "digest:") then None else Some(c)
  {
    x := Indent(line);
    IndentIs(line);
  }
}

/** How one rewritten line reads back. */
module RewrittenLines {
  import opened Wrappers
  import opened Text
  import opened Search
  import opened Lines
  import opened ImageRewriter

  /** A name that survives: trimmed, without a line feed and without either marker. */
  predicate CleanName(name: string) {
    Trim(name, JsSpace) == name && '\n' !in name && !Contains(name, NAME) && !Contains(name, DIGEST)
  }

  ghost predicate CleanImages(components: seq<string>, images: map<string, Image>) {
    ValidImages(components, images) && forall c <- components :: CleanName(images[c].name)
  }

  // ---------- substrings ----------

  /** A substring cannot occur where one of its characters does not. */
  lemma NeedsChar(s: string, sub: string, k: nat)
    requires k < |sub| && sub[k] !in s
    ensures !Contains(s, sub)
  {
    forall i | 0 <= i <= |s| ensures !StartsWith(s[i..], sub) {
      if |sub| <= |s| - i { assert s[i..][..|sub|][k] == s[i + k]; }
    }
  }

  /** Text without the first character of `sub` in front does not change what is found after it. */
  lemma {:induction false} FindAfter(front: string, s: string, sub: string)
    requires sub != "" && sub[0] !in front
    ensures Contains(front + s, sub) <==> Contains(s, sub)
    ensures Contains(s, sub) ==> Find(front + s, sub) == |front| + Find(s, sub)
    decreases |front|
  {
    if front == "" {
      assert front + s == s;
    } else {
      assert (front + s)[1..] == front[1..] + s;
      assert (front + s)[0] == front[0];
      FindAfter(front[1..], s, sub);
    }
  }

  lemma {:induction false} IndentIsSpace(line: string)
    ensures forall c <- Indent(line) :: JsSpace(c)
    decreases |line|
  {
    if line != "" && JsSpace(line[0]) { IndentIsSpace(line[1..]); }
  }

  // ---------- trimming ----------

  lemma {:induction false} TrimLeftSpaces(front: string, s: string)
    requires (forall c <- front :: JsSpace(c)) && s != "" && !JsSpace(s[0])
    ensures TrimLeft(front + s, JsSpace) == s && Indent(front + s) == front
    decreases |front|
  {
    if front == "" {
      assert front + s == s;
    } else {
      assert (front + s)[1..] == front[1..] + s;
      TrimLeftSpaces(front[1..], s);
    }
  }

  lemma {:induction false} TrimRightKeepsHead(s: string)
    requires s != "" && !JsSpace(s[0])
    ensures TrimRight(s, JsSpace) != "" && TrimRight(s, JsSpace)[0] == s[0]
    decreases |s|
  {
    if |s| > 1 && JsSpace(s[|s| - 1]) { TrimRightKeepsHead(s[..|s| - 1]); }
  }

  /** A line whose first visible character is not a dash opens no block. */
  lemma NoBlock(components: seq<string>, front: string, s: string)
    requires (forall c <- front :: JsSpace(c)) && s != "" && !JsSpace(s[0]) && s[0] != '-'
    ensures BlockOf(components, front + s) == None
  {
    TrimLeftSpaces(front, s);
    TrimRightKeepsHead(s);
  }

  lemma TrimFixed(s: string)
    requires s != "" && !JsSpace(s[0]) && !JsSpace(s[|s| - 1])
    ensures Trim(s, JsSpace) == s
  {}

  lemma TrimSpaceFirst(s: string)
    ensures Trim(" " + s, JsSpace) == Trim(s, JsSpace)
  {
    assert (" " + s)[1..] == s;
  }

  // ---------- the two kinds of rewritten line ----------

  lemma DropFront(front: string, marker: string, rest: string)
    ensures (front + (marker + rest))[|front| + |marker|..] == rest
  {}

  lemma BetweenMarker(front: string, marker: string, rest: string)
    requires marker != "" && marker[0] !in front && !Contains(rest, marker)
    ensures Contains(front + (marker + rest), marker) && Between(front + (marker + rest), marker) == rest
  {
    var s := marker + rest;
    assert StartsWith(s, marker) && Find(s, marker) == 0;
    FindAfter(front, s, marker);
    DropFront(front, marker, rest);
  }

  /** A line of the form indentation, marker, space, value reads back as the value. */
  lemma MarkedLineReads(front: string, marker: string, head: string, value: string)
    requires marker != "" && marker[0] !in front && marker[0] != ' ' && head == marker + " "
    requires Trim(value, JsSpace) == value && !Contains(value, marker)
    ensures Contains(front + head + value, marker) && Value(front + head + value, marker) == value
  {
    FindAfter(" ", value, marker);
    BetweenMarker(front, marker, " " + value);
    Regroup(front, marker, head, value);
    TrimSpaceFirst(value);
  }

  lemma Regroup(front: string, marker: string, head: string, value: string)
    requires head == marker + " "
    ensures front + (marker + (" " + value)) == front + head + value
  {}

  /** The shape both rewritten lines share. */
  lemma WrittenLine(components: seq<string>, line: string, s: string)
    requires s != "" && !JsSpace(s[0]) && s[0] != '-'
    ensures BlockOf(components, Indent(line) + s) == None && Indent(Indent(line) + s) == Indent(line)
  {
    IndentIsSpace(line);
    NoBlock(components, Indent(line), s);
    TrimLeftSpaces(Indent(line), s);
  }

  lemma NameLineReads(line: string, name: string)
    requires CleanName(name)
    ensures var l := Indent(line) + "newName: " + name; Contains(l, NAME) && Value(l, NAME) == name
  {
    IndentIsSpace(line);
    MarkedLineReads(Indent(line), NAME, "newName: ", name);
  }

  lemma NameLineHasNoDigest(line: string, name: string)
    requires CleanName(name)
    ensures !Contains(Indent(line) + "newName: " + name, DIGEST)
  {
    IndentIsSpace(line);
    FindAfter(Indent(line) + "newName: ", name, DIGEST);
  }

  lemma DigestLineReads(line: string, digest: string)
    requires ValidDigest(digest)
    ensures var l := Indent(line) + "digest: " + digest; Contains(l, DIGEST) && Value(l, DIGEST) == digest
  {
    IndentIsSpace(line);
    DigestCharacters(digest);
    NeedsChar(digest, DIGEST, 2);
    TrimFixed(digest);
    MarkedLineReads(Indent(line), DIGEST, "digest: ", digest);
  }

  lemma DigestLineHasNoName(line: string, digest: string)
    requires ValidDigest(digest)
    ensures !Contains(Indent(line) + "digest: " + digest, NAME)
  {
    IndentIsSpace(line);
    DigestCharacters(digest);
    NeedsChar(Indent(line) + "digest: " + digest, NAME, 3);
  }

  lemma DigestCharacters(digest: string)
    requires ValidDigest(digest)
    ensures forall c <- digest :: c != 'N' && c != 'g' && c != '\n' && !JsSpace(c)
  {
    forall i | 0 <= i < |digest|
      ensures digest[i] != 'N' && digest[i] != 'g' && digest[i] != '\n' && !JsSpace(digest[i]) {
      if i < 7 { assert digest[i] == digest[..7][i]; } else { assert Hex(digest[i]); }
    }
  }
}

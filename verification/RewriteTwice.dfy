/** What the rewriter leaves alone, and that rewriting twice is rewriting once. */
module RewriteTwice {
  import opened Wrappers
  import opened Text
  import opened Search
  import opened Lines
  import opened ImageRewriter
  import opened RewrittenLines
  import opened Promotion

  // ---------- which block is open ----------

  /** Line `i` opens the block of `c`, and no line from there to `x` opens or closes another. */
  ghost predicate OpenFrom(components: seq<string>, lines: seq<string>, c: string, i: nat, x: nat) {
    && i < x <= |lines| && BlockOf(components, lines[i]) == Some(c)
    && forall y | i < y < x :: Calm(components, lines[y])
  }

  lemma OpenStays(components: seq<string>, lines: seq<string>, c: string, i: nat, x: nat)
    requires x < |lines| && OpenFrom(components, lines, c, i, x) && Calm(components, lines[x])
    ensures OpenFrom(components, lines, c, i, x + 1)
  {}

  lemma OpensHere(components: seq<string>, lines: seq<string>, c: string, i: nat)
    requires i < |lines| && BlockOf(components, lines[i]) == Some(c)
    ensures OpenFrom(components, lines, c, i, i + 1)
  {}

  lemma ActiveUnfolds(components: seq<string>, lines: seq<string>, x: nat)
    requires 0 < x <= |lines|
    ensures ActiveAt(components, lines, x) == NextActive(components, ActiveAt(components, lines, x - 1), lines[x - 1])
  {}

  lemma ActiveBefore(components: seq<string>, active: Option<string>, line: string)
    requires NextActive(components, active, line).Some?
    ensures NextActive(components, active, line) == BlockOf(components, line)
         || (Calm(components, line) && NextActive(components, active, line) == active)
  {}

  lemma OneLineBack(components: seq<string>, lines: seq<string>, c: string, x: nat)
    requires 0 < x <= |lines| && ActiveAt(components, lines, x) == Some(c)
    ensures BlockOf(components, lines[x - 1]) == Some(c)
         || (Calm(components, lines[x - 1]) && ActiveAt(components, lines, x - 1) == Some(c))
  {
    ActiveUnfolds(components, lines, x);
    ActiveBefore(components, ActiveAt(components, lines, x - 1), lines[x - 1]);
  }

  lemma {:induction false} ActiveIsOpen(components: seq<string>, lines: seq<string>, c: string, x: nat) returns (i: nat)
    requires x <= |lines| && ActiveAt(components, lines, x) == Some(c)
    ensures OpenFrom(components, lines, c, i, x)
    decreases x
  {
    assert x > 0;
    OneLineBack(components, lines, c, x);
    if BlockOf(components, lines[x - 1]) == Some(c) {
      i := x - 1;
      OpensHere(components, lines, c, i);
    } else {
      i := ActiveIsOpen(components, lines, c, x - 1);
      OpenStays(components, lines, c, i, x - 1);
    }
  }

  /** The writer's `active` variable is the block that is open in the text. */
  lemma ActiveIff(components: seq<string>, lines: seq<string>, x: nat, c: string)
    requires x <= |lines|
    ensures ActiveAt(components, lines, x) == Some(c) <==> exists i: nat :: OpenFrom(components, lines, c, i, x)
  {
    if ActiveAt(components, lines, x) == Some(c) {
      var i := ActiveIsOpen(components, lines, c, x);
    }
    if i: nat :| OpenFrom(components, lines, c, i, x) {
      ActiveWhileCalm(components, lines, i, x);
    }
  }

  /** The frame: a line outside every open block, or without a marker, or that opens a block, is found again as
      it was, up to the carriage return of its line break and empty lines at the end. */
  lemma OtherLinesStay(components: seq<string>, text: string, images: map<string, Image>, x: nat)
    requires Write(components, text, images).Success? && x < |Split(text)|
    requires forall c <- components :: '\n' !in images[c].name
    requires var line := Split(text)[x];
      || BlockOf(components, line).Some? || !(Contains(line, NAME) || Contains(line, DIGEST))
      || forall c: string, i: nat :: !OpenFrom(components, Split(text), c, i, x)
    ensures var again := Split(Write(components, text, images).value);
      if x < |again| - 1 then again[x] == DropCR(Split(text)[x]) else Split(text)[x] == ""
  {
    var lines := Split(text);
    SplitUnbrokenFrom(text, "");
    RewrittenUnbroken(components, images, lines);
    SplitPrint(Rewritten(components, images, lines));
    FoundAt(components, images, lines, x);
    if ActiveAt(components, lines, x).Some? {
      var i := ActiveIsOpen(components, lines, ActiveAt(components, lines, x).value, x);
    }
  }

  // ---------- twice ----------

  predicate EndsInCR(line: string) { line != "" && line[|line| - 1] == '\r' }

  lemma MarkedContains(front: string, marker: string, rest: string)
    ensures Contains(front + marker + rest, marker)
  {
    assert (front + marker + rest)[|front|..] == marker + rest;
    ContainsAt(front + marker + rest, marker, |front|);
  }

  lemma NewNameContains(line: string, name: string)
    ensures Contains(Indent(line) + "newName: " + name, NAME)
  {
    assert Indent(line) + "newName: " + name == Indent(line) + NAME + (" " + name);
    MarkedContains(Indent(line), NAME, " " + name);
  }

  lemma Regrouped(a: string, b: string, c: string)
    ensures a + b + c == a + (b + c)
  {}

  lemma WrittenName(components: seq<string>, line: string, name: string)
    ensures var l := Indent(line) + "newName: " + name;
      BlockOf(components, l) == None && Indent(l) == Indent(line) && Contains(l, NAME)
  {
    NewNameContains(line, name);
    WrittenLine(components, line, "newName: " + name);
    Regrouped(Indent(line), "newName: ", name);
  }

  lemma WrittenDigest(components: seq<string>, line: string, digest: string)
    requires ValidDigest(digest)
    ensures var l := Indent(line) + "digest: " + digest;
      BlockOf(components, l) == None && Indent(l) == Indent(line) && DigestOnly(l)
  {
    DigestLineReads(line, digest);
    DigestLineHasNoName(line, digest);
    WrittenLine(components, line, "digest: " + digest);
    Regrouped(Indent(line), "digest: ", digest);
  }

  lemma NameLineTwice(components: seq<string>, images: map<string, Image>, c: string, line: string)
    requires ValidImages(components, images) && c in components
    ensures var l := Indent(line) + "newName: " + images[c].name;
      NewLine(components, images, Some(c), l) == l && NextActive(components, Some(c), l) == Some(c)
  {
    WrittenName(components, line, images[c].name);
  }

  lemma DigestLineTwice(components: seq<string>, images: map<string, Image>, c: string, line: string)
    requires ValidImages(components, images) && c in components
    ensures var l := Indent(line) + "digest: " + images[c].digest;
      NewLine(components, images, Some(c), l) == l && NextActive(components, Some(c), l) == None
  {
    WrittenDigest(components, line, images[c].digest);
  }

  /** Rewriting a rewritten line changes nothing, and it opens and closes the same. */
  lemma NewLineTwice(components: seq<string>, images: map<string, Image>, active: Option<string>, line: string)
    requires ValidImages(components, images) && (active.Some? ==> active.value in components)
    ensures var l := NewLine(components, images, active, line);
      NewLine(components, images, active, l) == l
      && NextActive(components, active, l) == NextActive(components, active, line)
  {
    if active.Some? && BlockOf(components, line) == None {
      if Contains(line, NAME) {
        NameLineTwice(components, images, active.value, line);
      } else if Contains(line, DIGEST) {
        DigestLineTwice(components, images, active.value, line);
      }
    }
  }

  lemma {:induction false} TrimmedAgain(lines: seq<string>)
    requires lines != []
    ensures Trimmed(Trimmed(lines) + [""]) == Trimmed(lines)
    decreases |lines|
  {
    var kept := Trimmed(lines);
    if |lines| == 1 {
      assert (kept + [""])[1..] == [""];
    } else {
      var rest := Trimmed(lines[1..]);
      TrimmedAgain(lines[1..]);
      if rest == [""] {
        assert (kept + [""])[1..] == [""];
        assert kept == lines[..1] && (kept + [""])[..1] == kept;
      } else {
        assert (kept + [""])[1..] == rest + [""];
      }
    }
  }

  /** `line` opens and closes what line `x` does. */
  predicate MovesAlike(components: seq<string>, lines: seq<string>, x: nat, line: string)
    requires x < |lines|
  {
    NextActive(components, ActiveAt(components, lines, x), line) == ActiveAt(components, lines, x + 1)
  }

  lemma RewrittenMoves(components: seq<string>, images: map<string, Image>, lines: seq<string>, x: nat)
    requires ValidImages(components, images) && x < |lines|
    ensures MovesAlike(components, lines, x, Rewritten(components, images, lines)[x])
  {
    NewLineTwice(components, images, ActiveAt(components, lines, x), lines[x]);
    ActiveUnfolds(components, lines, x + 1);
  }

  lemma SameNext(components: seq<string>, lines: seq<string>, again: seq<string>, x: nat)
    requires x < |lines| && x < |again| && ActiveAt(components, again, x) == ActiveAt(components, lines, x)
    requires MovesAlike(components, lines, x, again[x])
    ensures ActiveAt(components, again, x + 1) == ActiveAt(components, lines, x + 1)
  {
    ActiveUnfolds(components, again, x + 1);
  }

  lemma {:induction false} SameActive(components: seq<string>, lines: seq<string>, again: seq<string>, x: nat)
    requires x <= |lines| && x <= |again|
    requires forall y | 0 <= y < x :: MovesAlike(components, lines, y, again[y])
    ensures ActiveAt(components, again, x) == ActiveAt(components, lines, x)
    decreases x
  {
    if x > 0 {
      SameActive(components, lines, again, x - 1);
      SameNext(components, lines, again, x - 1);
    }
  }

  lemma {:induction false} DropCRsNone(lines: seq<string>)
    requires forall x | 0 <= x < |lines| :: !EndsInCR(lines[x])
    ensures DropCRs(lines) == lines
    decreases |lines|
  {
    if lines != [] { DropCRsNone(lines[1..]); }
  }

  lemma AppendedCR(front: string, s: string)
    requires !EndsInCR(front) && !EndsInCR(s)
    ensures !EndsInCR(front + s)
  {}

  lemma NewLineCR(components: seq<string>, images: map<string, Image>, active: Option<string>, line: string)
    requires ValidImages(components, images) && (active.Some? ==> active.value in components) && !EndsInCR(line)
    requires forall c <- components :: !EndsInCR(images[c].name)
    ensures !EndsInCR(NewLine(components, images, active, line))
  {
    if active.Some? {
      var name, digest := images[active.value].name, images[active.value].digest;
      DigestCharacters(digest);
      assert digest != "" && !EndsInCR(digest);
      var n, d := Indent(line) + "newName: ", Indent(line) + "digest: ";
      assert n[|n| - 1] == ' ' && d[|d| - 1] == ' ';
      AppendedCR(n, name);
      AppendedCR(d, digest);
    }
  }

  lemma NoNewCR(components: seq<string>, images: map<string, Image>, lines: seq<string>, x: nat)
    requires ValidImages(components, images) && x < |lines| && !EndsInCR(lines[x])
    requires forall c <- components :: !EndsInCR(images[c].name)
    ensures !EndsInCR(Rewritten(components, images, lines)[x])
  {
    NewLineCR(components, images, ActiveAt(components, lines, x), lines[x]);
  }

  /** The lines of a rewritten file are fixed by a second rewrite. */
  lemma RewrittenTwice(components: seq<string>, images: map<string, Image>, lines: seq<string>)
    requires ValidImages(components, images) && lines != []
    ensures var again := Trimmed(Rewritten(components, images, lines)) + [""];
      Rewritten(components, images, again) == again
  {
    var out := Rewritten(components, images, lines);
    var again := Trimmed(out) + [""];
    var kept := |Trimmed(out)|;
    forall x | 0 <= x < |again| ensures Rewritten(components, images, again)[x] == again[x] {
      if x < kept {
        forall y | 0 <= y < x ensures MovesAlike(components, lines, y, again[y]) {
          RewrittenMoves(components, images, lines, y);
        }
        SameActive(components, lines, again, x);
        NewLineTwice(components, images, ActiveAt(components, lines, x), lines[x]);
      } else {
        NothingInEmpty(components);
      }
    }
  }

  lemma SeenAgain(components: seq<string>, images: map<string, Image>, lines: seq<string>)
    requires ValidImages(components, images) && lines != [] && AllSeen(components, lines)
    ensures AllSeen(components, Trimmed(Rewritten(components, images, lines)) + [""])
  {
    var out := Rewritten(components, images, lines);
    var again := Trimmed(out) + [""];
    forall c <- components ensures exists i :: 0 <= i < |again| && BlockOf(components, again[i]) == Some(c) {
      var i :| 0 <= i < |lines| && BlockOf(components, lines[i]) == Some(c);
      BlockFoundAgain(components, images, lines, i);
      NothingInEmpty(components);
      assert i < |Trimmed(out)| && again[i] == out[i];
    }
  }

  /** On text without stray carriage returns, writing the same images twice is writing them once. */
  lemma WritingTwice(components: seq<string>, text: string, images: map<string, Image>)
    requires Write(components, text, images).Success?
    requires forall x | 0 <= x < |Split(text)| :: !EndsInCR(Split(text)[x])
    requires forall c <- components :: '\n' !in images[c].name && !EndsInCR(images[c].name)
    ensures Write(components, Write(components, text, images).value, images) == Write(components, text, images)
  {
    var lines := Split(text);
    var out := Rewritten(components, images, lines);
    SplitUnbrokenFrom(text, "");
    RewrittenUnbroken(components, images, lines);
    SplitPrint(out);
    forall x | 0 <= x < |Trimmed(out)| ensures !EndsInCR(Trimmed(out)[x]) {
      NoNewCR(components, images, lines, x);
      assert Trimmed(out)[x] == out[x];
    }
    DropCRsNone(Trimmed(out));
    RewrittenTwice(components, images, lines);
    SeenAgain(components, images, lines);
    TrimmedAgain(out);
    StripJoin(out);
    assert Unbroken(Trimmed(out) + [""]);
    StripJoin(Trimmed(out) + [""]);
  }
}

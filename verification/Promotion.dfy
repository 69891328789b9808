/** When the images that are written are the images that are read back. */
module Promotion {
  import opened Wrappers
  import opened Text
  import opened Search
  import opened Lines
  import opened ImageRewriter
  import opened RewrittenLines

  predicate DigestOnly(line: string) { Contains(line, DIGEST) && !Contains(line, NAME) }

  /** The block opened at line `i` has its first name line at `j` and its first line with a digest alone at `k`:
      in this order, within three lines, and before any other block. */
  ghost predicate Block(components: seq<string>, lines: seq<string>, i: nat, j: nat, k: nat) {
    && i < j < k <= i + 3 && k < |lines|
    && Contains(lines[j], NAME) && DigestOnly(lines[k])
    && (forall x | i < x < j :: !Contains(lines[x], NAME))
    && (forall x | i < x < k :: !DigestOnly(lines[x]))
    && (forall x | i < x <= k :: BlockOf(components, lines[x]) == None)
  }

  ghost predicate HasBlock(components: seq<string>, lines: seq<string>, i: nat) {
    exists j: nat, k: nat :: Block(components, lines, i, j, k)
  }

  /** Every block of the file is in order. */
  ghost predicate Ready(components: seq<string>, lines: seq<string>) {
    forall i: nat | i < |lines| && BlockOf(components, lines[i]).Some? :: HasBlock(components, lines, i)
  }

  // ---------- a carriage return at the end of a line changes nothing that matters ----------

  lemma WithoutLast(s: string, i: nat, n: nat)
    requires s != "" && i + n < |s|
    ensures s[..|s| - 1][i..][..n] == s[i..][..n]
  {
    var x, y := s[..|s| - 1][i..][..n], s[i..][..n];
    assert |x| == n && |y| == n;
    assert forall k | 0 <= k < n :: x[k] == s[i + k] && y[k] == s[i + k];
  }

  lemma EndsOtherwise(s: string, marker: string)
    requires s != "" && marker != "" && |marker| <= |s| && s[|s| - 1] !in marker
    ensures !StartsWith(s[|s| - |marker|..], marker)
  {
    var tail := s[|s| - |marker|..];
    assert tail[..|marker|][|marker| - 1] == s[|s| - 1];
  }

  lemma DropCRContains(line: string, marker: string)
    requires marker != "" && '\r' !in marker
    ensures Contains(DropCR(line), marker) <==> Contains(line, marker)
  {
    var base := DropCR(line);
    if base != line {
      forall i | 0 <= i <= |line|
        ensures StartsWith(line[i..], marker) <==> i <= |base| && StartsWith(base[i..], marker) {
        if |marker| == |line| - i { EndsOtherwise(line, marker); }
        if |marker| < |line| - i { WithoutLast(line, i, |marker|); }
      }
    }
  }

  lemma {:induction false} TrimLeftSnoc(s: string, c: char)
    requires JsSpace(c)
    ensures TrimLeft(s + [c], JsSpace) == if TrimLeft(s, JsSpace) == "" then "" else TrimLeft(s, JsSpace) + [c]
    decreases |s|
  {
    if s == "" {
      assert (s + [c])[1..] == "";
    } else {
      assert (s + [c])[1..] == s[1..] + [c];
      if JsSpace(s[0]) { TrimLeftSnoc(s[1..], c); }
    }
  }

  lemma DropCRBlock(components: seq<string>, line: string)
    ensures BlockOf(components, DropCR(line)) == BlockOf(components, line)
  {
    var base := DropCR(line);
    if base != line {
      assert line == base + ['\r'];
      TrimLeftSnoc(base, '\r');
      var t := TrimLeft(base, JsSpace);
      assert (t + ['\r'])[..|t|] == t;
    }
  }

  lemma {:induction false} TrimShrinks(s: string)
    ensures |TrimLeft(s, JsSpace)| <= |s| && |TrimRight(s, JsSpace)| <= |s|
    decreases |s|
  {
    if s != "" { TrimShrinks(s[1..]); TrimShrinks(s[..|s| - 1]); }
  }

  lemma TrimmedEnd(s: string)
    requires Trim(s, JsSpace) == s && s != ""
    ensures !JsSpace(s[|s| - 1])
  {
    TrimShrinks(s);
    TrimShrinks(TrimLeft(s, JsSpace));
    TrimShrinks(s[1..]);
    TrimShrinks(s[..|s| - 1]);
  }

  // ---------- inside a block ----------

  /** A line that neither opens nor closes a block. */
  predicate Calm(components: seq<string>, line: string) { BlockOf(components, line) == None && !DigestOnly(line) }

  lemma CalmKeepsActive(components: seq<string>, lines: seq<string>, x: nat)
    requires x < |lines| && Calm(components, lines[x])
    ensures ActiveAt(components, lines, x + 1) == ActiveAt(components, lines, x)
  {}

  lemma BlockOpens(components: seq<string>, lines: seq<string>, i: nat)
    requires i < |lines| && BlockOf(components, lines[i]).Some?
    ensures ActiveAt(components, lines, i + 1) == BlockOf(components, lines[i])
  {}

  lemma {:induction false} ActiveWhileCalm(components: seq<string>, lines: seq<string>, i: nat, x: nat)
    requires i < x <= |lines| && BlockOf(components, lines[i]).Some?
    requires forall y | i < y < x :: Calm(components, lines[y])
    ensures ActiveAt(components, lines, x) == BlockOf(components, lines[i])
    decreases x
  {
    if x == i + 1 {
      BlockOpens(components, lines, i);
    } else {
      ActiveWhileCalm(components, lines, i, x - 1);
      CalmKeepsActive(components, lines, x - 1);
    }
  }

  lemma ActiveInBlock(components: seq<string>, lines: seq<string>, i: nat, j: nat, k: nat, x: nat)
    requires Block(components, lines, i, j, k) && BlockOf(components, lines[i]).Some? && i < x <= k
    ensures ActiveAt(components, lines, x) == BlockOf(components, lines[i])
  {
    assert forall y | i < y < x :: BlockOf(components, lines[y]) == None && !DigestOnly(lines[y]);
    ActiveWhileCalm(components, lines, i, x);
  }

  /** A line of the file as it is found again: rewritten, printed and split. */
  function Reread(components: seq<string>, images: map<string, Image>, lines: seq<string>, x: nat): string
    requires ValidImages(components, images) && x < |lines|
  {
    DropCR(Rewritten(components, images, lines)[x])
  }

  lemma NameLineIs(components: seq<string>, images: map<string, Image>, lines: seq<string>, x: nat)
    requires ValidImages(components, images) && x < |lines| && ActiveAt(components, lines, x).Some?
    requires BlockOf(components, lines[x]) == None && Contains(lines[x], NAME)
    ensures Rewritten(components, images, lines)[x]
         == Indent(lines[x]) + "newName: " + images[ActiveAt(components, lines, x).value].name
  {}

  lemma DigestLineIs(components: seq<string>, images: map<string, Image>, lines: seq<string>, x: nat)
    requires ValidImages(components, images) && x < |lines| && ActiveAt(components, lines, x).Some?
    requires BlockOf(components, lines[x]) == None && DigestOnly(lines[x])
    ensures Rewritten(components, images, lines)[x]
         == Indent(lines[x]) + "digest: " + images[ActiveAt(components, lines, x).value].digest
  {}

  lemma EndOf(front: string, s: string)
    requires front != ""
    ensures var l := front + s; l[|l| - 1] == if s == "" then front[|front| - 1] else s[|s| - 1]
  {}

  lemma NameLineEnds(line: string, name: string)
    requires CleanName(name)
    ensures DropCR(Indent(line) + "newName: " + name) == Indent(line) + "newName: " + name
  {
    if name != "" { TrimmedEnd(name); }
    var front := Indent(line) + "newName: ";
    assert front[|front| - 1] == ' ';
    EndOf(front, name);
  }

  lemma DigestLineEnds(line: string, digest: string)
    requires ValidDigest(digest)
    ensures DropCR(Indent(line) + "digest: " + digest) == Indent(line) + "digest: " + digest
  {
    DigestCharacters(digest);
    var l := Indent(line) + "digest: " + digest;
    assert l[|l| - 1] == digest[70];
  }

  lemma NameLineRereads(components: seq<string>, images: map<string, Image>, lines: seq<string>, x: nat)
    requires CleanImages(components, images) && x < |lines| && ActiveAt(components, lines, x).Some?
    requires BlockOf(components, lines[x]) == None && Contains(lines[x], NAME)
    ensures var l := Reread(components, images, lines, x);
      Contains(l, NAME) && !Contains(l, DIGEST) && Value(l, NAME) == images[ActiveAt(components, lines, x).value].name
  {
    var name := images[ActiveAt(components, lines, x).value].name;
    NameLineIs(components, images, lines, x);
    NameLineEnds(lines[x], name);
    NameLineReads(lines[x], name);
    NameLineHasNoDigest(lines[x], name);
  }

  lemma DigestLineRereads(components: seq<string>, images: map<string, Image>, lines: seq<string>, x: nat)
    requires ValidImages(components, images) && x < |lines| && ActiveAt(components, lines, x).Some?
    requires BlockOf(components, lines[x]) == None && DigestOnly(lines[x])
    ensures var l := Reread(components, images, lines, x);
      Contains(l, DIGEST) && Value(l, DIGEST) == images[ActiveAt(components, lines, x).value].digest
  {
    var digest := images[ActiveAt(components, lines, x).value].digest;
    DigestLineIs(components, images, lines, x);
    DigestLineEnds(lines[x], digest);
    DigestLineReads(lines[x], digest);
  }

  lemma NoMarkerHasCR()
    ensures NAME != "" && DIGEST != "" && '\r' !in NAME && '\r' !in DIGEST
  {}

  /** A line the writer leaves alone keeps what it contains. */
  lemma OtherLineRereads(components: seq<string>, images: map<string, Image>, lines: seq<string>, x: nat,
    marker: string)
    requires ValidImages(components, images) && x < |lines| && marker in {NAME, DIGEST}
    requires Rewritten(components, images, lines)[x] == lines[x]
    ensures Contains(Reread(components, images, lines, x), marker) <==> Contains(lines[x], marker)
  {
    NoMarkerHasCR();
    DropCRContains(lines[x], marker);
  }

  lemma BlockRereads(components: seq<string>, images: map<string, Image>, lines: seq<string>, i: nat, j: nat, k: nat)
    requires CleanImages(components, images) && Block(components, lines, i, j, k)
    requires BlockOf(components, lines[i]).Some?
    ensures BlockOf(components, lines[i]).value in components
    ensures var n, d := Reread(components, images, lines, j), Reread(components, images, lines, k);
      && Contains(n, NAME) && Contains(d, DIGEST)
      && images[BlockOf(components, lines[i]).value] == Image(Value(n, NAME), Value(d, DIGEST))
    ensures forall x | i < x < j :: !Contains(Reread(components, images, lines, x), NAME)
    ensures forall x | i < x < k :: !Contains(Reread(components, images, lines, x), DIGEST)
  {
    forall x | i < x <= k ensures ActiveAt(components, lines, x) == BlockOf(components, lines[i]) {
      ActiveInBlock(components, lines, i, j, k, x);
    }
    NameLineRereads(components, images, lines, j);
    DigestLineRereads(components, images, lines, k);
    forall x | i < x < k ensures !Contains(Reread(components, images, lines, x), DIGEST)
                              && (x < j ==> !Contains(Reread(components, images, lines, x), NAME)) {
      if Contains(lines[x], NAME) {
        NameLineRereads(components, images, lines, x);
      } else {
        OtherLineRereads(components, images, lines, x, DIGEST);
        OtherLineRereads(components, images, lines, x, NAME);
      }
    }
  }

  // ---------- the whole file ----------

  /** The lines of the file as they are found again. */
  function FoundAgain(components: seq<string>, images: map<string, Image>, lines: seq<string>): seq<string>
    requires ValidImages(components, images) && lines != []
  {
    DropCRs(Trimmed(Rewritten(components, images, lines))) + [""]
  }

  lemma FoundAt(components: seq<string>, images: map<string, Image>, lines: seq<string>, x: nat)
    requires ValidImages(components, images) && x < |lines|
    ensures var again := FoundAgain(components, images, lines);
      if x < |again| - 1 then again[x] == Reread(components, images, lines, x)
      else Rewritten(components, images, lines)[x] == ""
    ensures |FoundAgain(components, images, lines)| - 1 <= |lines|
  {}

  lemma NothingInEmpty(components: seq<string>)
    ensures BlockOf(components, "") == None && !Contains("", NAME) && !Contains("", DIGEST)
  {}

  lemma FirstAfterIs(lines: seq<string>, i: nat, marker: string, j: nat)
    requires i < j <= i + 3 && j < |lines| && Contains(lines[j], marker)
    requires forall x | i < x < j :: !Contains(lines[x], marker)
    ensures FirstAfter(lines, i, marker) == j
  {}

  lemma ImageRereads(components: seq<string>, images: map<string, Image>, lines: seq<string>, i: nat, j: nat, k: nat)
    requires CleanImages(components, images) && Block(components, lines, i, j, k)
    requires BlockOf(components, lines[i]).Some?
    ensures BlockOf(components, lines[i]).value in components
    ensures k < |FoundAgain(components, images, lines)| - 1
    ensures ImageAt(FoundAgain(components, images, lines), i) == Some(images[BlockOf(components, lines[i]).value])
  {
    BlockRereads(components, images, lines, i, j, k);
    NothingInEmpty(components);
    var again := FoundAgain(components, images, lines);
    forall x | i < x <= k ensures x < |again| - 1 && again[x] == Reread(components, images, lines, x) {
      FoundAt(components, images, lines, x);
      FoundAt(components, images, lines, k);
    }
    FirstAfterIs(again, i, NAME, j);
    FirstAfterIs(again, i, DIGEST, k);
  }

  lemma NewLineBlock(components: seq<string>, images: map<string, Image>, active: Option<string>, line: string)
    requires ValidImages(components, images) && (active.Some? ==> active.value in components)
    ensures BlockOf(components, NewLine(components, images, active, line)) == BlockOf(components, line)
  {
    if active.Some? {
      var name, digest := images[active.value].name, images[active.value].digest;
      WrittenLine(components, line, "newName: " + name);
      WrittenLine(components, line, "digest: " + digest);
      assert Indent(line) + "newName: " + name == Indent(line) + ("newName: " + name);
      assert Indent(line) + "digest: " + digest == Indent(line) + ("digest: " + digest);
    }
  }

  lemma BlockFoundAgain(components: seq<string>, images: map<string, Image>, lines: seq<string>, x: nat)
    requires ValidImages(components, images) && x < |lines|
    ensures BlockOf(components, Rewritten(components, images, lines)[x]) == BlockOf(components, lines[x])
    ensures BlockOf(components, Reread(components, images, lines, x)) == BlockOf(components, lines[x])
  {
    DropCRBlock(components, Rewritten(components, images, lines)[x]);
    NewLineBlock(components, images, ActiveAt(components, lines, x), lines[x]);
  }

  /** If the line opens a block, the block holds the image of its component. */
  predicate Holds(images: map<string, Image>, opening: Opening) {
    opening.block.Some? ==> opening.block.value in images && opening.image == Some(images[opening.block.value])
  }

  /** Whatever block is found again holds the image that was written. */
  lemma FoundBlock(components: seq<string>, images: map<string, Image>, lines: seq<string>, x: nat)
    requires CleanImages(components, images) && lines != [] && Ready(components, lines)
    requires x < |FoundAgain(components, images, lines)|
    ensures Holds(images, Openings(components, FoundAgain(components, images, lines))[x])
  {
    NothingInEmpty(components);
    if x < |FoundAgain(components, images, lines)| - 1 {
      FoundAt(components, images, lines, x);
      BlockFoundAgain(components, images, lines, x);
      if BlockOf(components, lines[x]).Some? {
        assert HasBlock(components, lines, x);
        var j: nat, k: nat :| Block(components, lines, x, j, k);
        ImageRereads(components, images, lines, x, j, k);
      }
    }
  }

  /** If every block holds the image of its component, the images read are exactly those of the blocks. */
  lemma {:induction false} CollectHolds(openings: seq<Opening>, images: map<string, Image>)
    requires forall o <- openings :: Holds(images, o)
    ensures var r := Collect(openings);
      && r.Success?
      && (forall c <- r.value :: c in images && r.value[c] == images[c])
      && (forall c :: c in r.value <==> exists o <- openings :: o.block == Some(c))
    decreases |openings|
  {
    if openings != [] {
      var n := |openings| - 1;
      assert openings == openings[..n] + [openings[n]];
      CollectHolds(openings[..n], images);
      assert Holds(images, openings[n]);
    }
  }

  lemma {:induction false} IndentUnbroken(line: string)
    requires '\n' !in line
    ensures '\n' !in Indent(line)
    decreases |line|
  {
    if line != "" && JsSpace(line[0]) { IndentUnbroken(line[1..]); }
  }

  lemma NewLineUnbroken(components: seq<string>, images: map<string, Image>, active: Option<string>, line: string)
    requires ValidImages(components, images) && (active.Some? ==> active.value in components)
    requires '\n' !in line && forall c <- components :: '\n' !in images[c].name
    ensures '\n' !in NewLine(components, images, active, line)
  {
    IndentUnbroken(line);
    if active.Some? { DigestCharacters(images[active.value].digest); }
  }

  lemma RewrittenUnbroken(components: seq<string>, images: map<string, Image>, lines: seq<string>)
    requires ValidImages(components, images) && Unbroken(lines)
    requires forall c <- components :: '\n' !in images[c].name
    ensures Unbroken(Rewritten(components, images, lines))
  {
    forall x | 0 <= x < |lines| ensures '\n' !in Rewritten(components, images, lines)[x] {
      NewLineUnbroken(components, images, ActiveAt(components, lines, x), lines[x]);
    }
  }

  function Chosen(components: seq<string>, images: map<string, Image>): map<string, Image>
    requires forall c <- components :: c in images
  {
    map c | c in components :: images[c]
  }

  /** Every component is seen again. */
  lemma SeenOnceMore(components: seq<string>, images: map<string, Image>, lines: seq<string>, c: string)
    requires ValidImages(components, images) && lines != [] && AllSeen(components, lines) && c in components
    ensures exists o <- Openings(components, FoundAgain(components, images, lines)) :: o.block == Some(c)
  {
    var x :| 0 <= x < |lines| && BlockOf(components, lines[x]) == Some(c);
    FoundAt(components, images, lines, x);
    BlockFoundAgain(components, images, lines, x);
    NothingInEmpty(components);
    assert Openings(components, FoundAgain(components, images, lines))[x].block == Some(c);
  }

  lemma ChosenIs(components: seq<string>, images: map<string, Image>, read: map<string, Image>)
    requires forall c <- components :: c in images && c in read
    requires forall c <- read :: c in components && c in images && read[c] == images[c]
    ensures read == Chosen(components, images)
  {}

  lemma BlockIsComponent(components: seq<string>, line: string)
    ensures BlockOf(components, line).Some? ==> BlockOf(components, line).value in components
  {}

  lemma ReadsFoundAgain(components: seq<string>, images: map<string, Image>, lines: seq<string>)
    requires CleanImages(components, images) && lines != []
    requires AllSeen(components, lines) && Ready(components, lines)
    ensures Collect(Openings(components, FoundAgain(components, images, lines))) == Success(Chosen(components, images))
  {
    var again := FoundAgain(components, images, lines);
    var openings := Openings(components, again);
    forall x | 0 <= x < |again|
      ensures Holds(images, openings[x]) && (openings[x].block.Some? ==> openings[x].block.value in components) {
      FoundBlock(components, images, lines, x);
      BlockIsComponent(components, again[x]);
    }
    CollectHolds(openings, images);
    forall c <- components ensures exists o <- openings :: o.block == Some(c) {
      SeenOnceMore(components, images, lines, c);
    }
    ChosenIs(components, images, Collect(openings).value);
  }

  /** The lines that are found again. */
  lemma WrittenReadsAs(components: seq<string>, text: string, images: map<string, Image>)
    requires ValidImages(components, images) && AllSeen(components, Split(text))
    requires forall c <- components :: '\n' !in images[c].name
    ensures Write(components, text, images).Success?
    ensures Split(Write(components, text, images).value) == FoundAgain(components, images, Split(text))
  {
    var lines := Split(text);
    SplitUnbrokenFrom(text, "");
    RewrittenUnbroken(components, images, lines);
    SplitPrint(Rewritten(components, images, lines));
  }

  /** Writing clean images to a file whose blocks are in order succeeds, and reading them back gives the same. */
  lemma PromotionPreservesImages(components: seq<string>, text: string, images: map<string, Image>)
    requires CleanImages(components, images) && AllSeen(components, Split(text)) && Ready(components, Split(text))
    ensures Write(components, text, images).Success?
    ensures Read(components, Write(components, text, images).value) == Success(Chosen(components, images))
  {
    WrittenReadsAs(components, text, images);
    ReadsFoundAgain(components, images, Split(text));
  }
}

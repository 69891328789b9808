/** Exactly which files keep the images that are written to them. */
module PromotionExact {
  import opened Wrappers
  import opened Text
  import opened Search
  import opened Lines
  import opened ImageRewriter
  import opened RewrittenLines
  import opened Promotion
  import opened RewriteTwice

  ghost predicate OneBlockEach(components: seq<string>, lines: seq<string>) {
    forall x: nat, y: nat | x < |lines| && y < |lines| && BlockOf(components, lines[x]).Some?
      && BlockOf(components, lines[x]) == BlockOf(components, lines[y]) :: x == y
  }

  // ---------- where a marker is found again ----------

  /** Line `x` has the marker after the rewrite, whatever the images are. */
  predicate Shows(components: seq<string>, lines: seq<string>, x: nat, marker: string)
    requires x < |lines|
  {
    && Contains(lines[x], marker)
    && !(marker == DIGEST && ActiveAt(components, lines, x).Some? && BlockOf(components, lines[x]) == None
         && Contains(lines[x], NAME))
  }

  lemma DigestLineHasNoNameAgain(components: seq<string>, images: map<string, Image>, lines: seq<string>, x: nat)
    requires ValidImages(components, images) && x < |lines| && ActiveAt(components, lines, x).Some?
    requires BlockOf(components, lines[x]) == None && DigestOnly(lines[x])
    ensures !Contains(Reread(components, images, lines, x), NAME)
  {
    var digest := images[ActiveAt(components, lines, x).value].digest;
    DigestLineHasNoName(lines[x], digest);
    DropCRContains(Indent(lines[x]) + "digest: " + digest, NAME);
  }

  predicate Touched(components: seq<string>, lines: seq<string>, x: nat)
    requires x < |lines|
  {
    ActiveAt(components, lines, x).Some? && BlockOf(components, lines[x]) == None
    && (Contains(lines[x], NAME) || Contains(lines[x], DIGEST))
  }

  lemma UntouchedStays(components: seq<string>, images: map<string, Image>, lines: seq<string>, x: nat)
    requires ValidImages(components, images) && x < |lines| && !Touched(components, lines, x)
    ensures Rewritten(components, images, lines)[x] == lines[x]
  {}

  lemma ShowsAgain(components: seq<string>, images: map<string, Image>, lines: seq<string>, x: nat, marker: string)
    requires CleanImages(components, images) && x < |lines| && marker in {NAME, DIGEST}
    ensures Contains(Reread(components, images, lines, x), marker) <==> Shows(components, lines, x, marker)
  {
    if !Touched(components, lines, x) {
      UntouchedStays(components, images, lines, x);
      OtherLineRereads(components, images, lines, x, marker);
    } else if Contains(lines[x], NAME) {
      NameLineRereads(components, images, lines, x);
    } else {
      DigestLineRereads(components, images, lines, x);
      DigestLineHasNoNameAgain(components, images, lines, x);
    }
  }

  /** Line `j` is the first of the three after line `i` that has the marker after the rewrite. */
  ghost predicate FirstShown(components: seq<string>, lines: seq<string>, i: nat, marker: string, j: nat) {
    && i < j <= i + 3 && j < |lines| && Shows(components, lines, j, marker)
    && forall x | i < x < j :: !Shows(components, lines, x, marker)
  }

  lemma FoundWhereShown(components: seq<string>, images: map<string, Image>, lines: seq<string>, x: nat, marker: string)
    requires CleanImages(components, images) && lines != [] && marker in {NAME, DIGEST}
    requires x < |FoundAgain(components, images, lines)|
    requires Contains(FoundAgain(components, images, lines)[x], marker)
    ensures x < |lines| && Shows(components, lines, x, marker)
    ensures FoundAgain(components, images, lines)[x] == Reread(components, images, lines, x)
  {
    NothingInEmpty(components);
    assert x < |FoundAgain(components, images, lines)| - 1;
    FoundAt(components, images, lines, x);
    ShowsAgain(components, images, lines, x, marker);
  }

  lemma ShownIsFound(components: seq<string>, images: map<string, Image>, lines: seq<string>, x: nat, marker: string)
    requires CleanImages(components, images) && x < |lines| && marker in {NAME, DIGEST}
    requires x < |FoundAgain(components, images, lines)| && Shows(components, lines, x, marker)
    ensures Contains(FoundAgain(components, images, lines)[x], marker)
  {
    NothingInEmpty(components);
    FoundAt(components, images, lines, x);
    ShowsAgain(components, images, lines, x, marker);
  }

  lemma FirstAfterShown(components: seq<string>, images: map<string, Image>, lines: seq<string>, i: nat, marker: string)
    requires CleanImages(components, images) && lines != [] && marker in {NAME, DIGEST}
    requires i < |FoundAgain(components, images, lines)|
    requires FirstAfter(FoundAgain(components, images, lines), i, marker) < |FoundAgain(components, images, lines)|
    ensures var j := FirstAfter(FoundAgain(components, images, lines), i, marker);
      && FirstShown(components, lines, i, marker, j)
      && FoundAgain(components, images, lines)[j] == Reread(components, images, lines, j)
  {
    var again := FoundAgain(components, images, lines);
    var j := FirstAfter(again, i, marker);
    FoundWhereShown(components, images, lines, j, marker);
    forall x | i < x < j ensures !Shows(components, lines, x, marker) {
      if Shows(components, lines, x, marker) { ShownIsFound(components, images, lines, x, marker); }
    }
  }

  // ---------- whose line it is ----------

  /** Two choices of images that tell every component's lines apart from each other and from the file's own. */
  ghost predicate Telling(components: seq<string>, a: map<string, Image>, b: map<string, Image>) {
    && CleanImages(components, a) && CleanImages(components, b)
    && (forall c, d | c in components && d in components && c != d ::
         a[c].name != a[d].name && a[c].digest != a[d].digest)
    && (forall c <- components :: a[c].name != b[c].name && a[c].digest != b[c].digest)
  }

  lemma NameOwner(
    components: seq<string>, a: map<string, Image>, b: map<string, Image>, lines: seq<string>, c: string, j: nat)
    requires Telling(components, a, b) && c in components && j < |lines| && Shows(components, lines, j, NAME)
    requires Contains(Reread(components, a, lines, j), NAME)
    requires Value(Reread(components, a, lines, j), NAME) == a[c].name
    requires Contains(Reread(components, b, lines, j), NAME)
    requires Value(Reread(components, b, lines, j), NAME) == b[c].name
    ensures ActiveAt(components, lines, j) == Some(c) && BlockOf(components, lines[j]) == None
  {
    if Touched(components, lines, j) {
      NameLineRereads(components, a, lines, j);
    } else {
      UntouchedStays(components, a, lines, j);
      UntouchedStays(components, b, lines, j);
    }
  }

  lemma DigestOwner(
    components: seq<string>, a: map<string, Image>, b: map<string, Image>, lines: seq<string>, c: string, k: nat)
    requires Telling(components, a, b) && c in components && k < |lines| && Shows(components, lines, k, DIGEST)
    requires Contains(Reread(components, a, lines, k), DIGEST)
    requires Value(Reread(components, a, lines, k), DIGEST) == a[c].digest
    requires Contains(Reread(components, b, lines, k), DIGEST)
    requires Value(Reread(components, b, lines, k), DIGEST) == b[c].digest
    ensures ActiveAt(components, lines, k) == Some(c) && BlockOf(components, lines[k]) == None && DigestOnly(lines[k])
  {
    if Touched(components, lines, k) {
      DigestLineRereads(components, a, lines, k);
    } else {
      UntouchedStays(components, a, lines, k);
      UntouchedStays(components, b, lines, k);
    }
  }

  /** Both lines belong to the block, so the block is in order. */
  lemma OwnedLinesInOrder(components: seq<string>, lines: seq<string>, c: string, i: nat, j: nat, k: nat)
    requires OneBlockEach(components, lines) && i < |lines| && BlockOf(components, lines[i]) == Some(c)
    requires FirstShown(components, lines, i, NAME, j) && FirstShown(components, lines, i, DIGEST, k)
    requires ActiveAt(components, lines, j) == Some(c) && BlockOf(components, lines[j]) == None
    requires ActiveAt(components, lines, k) == Some(c) && BlockOf(components, lines[k]) == None && DigestOnly(lines[k])
    ensures Block(components, lines, i, j, k)
  {
    var x := ActiveIsOpen(components, lines, c, j);
    var y := ActiveIsOpen(components, lines, c, k);
    assert x == i && y == i;
    assert forall z | i < z < j :: Calm(components, lines[z]);
    assert forall z | i < z < k :: Calm(components, lines[z]);
    assert Contains(lines[j], NAME);
    forall z | i < z < j ensures !Contains(lines[z], NAME) {
      assert !Shows(components, lines, z, NAME);
    }
  }

  // ---------- what the reader makes of the file ----------

  lemma {:induction false} CollectsTheOnly(openings: seq<Opening>, i: nat, c: string)
    requires i < |openings| && openings[i].block == Some(c) && Collect(openings).Success?
    requires forall x | 0 <= x < |openings| && x != i :: openings[x].block != Some(c)
    ensures c in Collect(openings).value && openings[i].image == Some(Collect(openings).value[c])
    decreases |openings|
  {
    var n := |openings| - 1;
    if i < n { CollectsTheOnly(openings[..n], i, c); }
  }

  lemma BlocksAgain(components: seq<string>, images: map<string, Image>, lines: seq<string>, x: nat)
    requires ValidImages(components, images) && lines != [] && x < |FoundAgain(components, images, lines)|
    ensures var b := BlockOf(components, FoundAgain(components, images, lines)[x]);
      if x < |lines| then b == BlockOf(components, lines[x]) else b == None
  {
    NothingInEmpty(components);
    if x < |lines| {
      FoundAt(components, images, lines, x);
      BlockFoundAgain(components, images, lines, x);
    }
  }

  lemma BlockStillThere(components: seq<string>, images: map<string, Image>, lines: seq<string>, i: nat)
    requires ValidImages(components, images) && i < |lines| && BlockOf(components, lines[i]).Some?
    ensures i < |FoundAgain(components, images, lines)|
  {
    NothingInEmpty(components);
    FoundAt(components, images, lines, i);
    BlockFoundAgain(components, images, lines, i);
  }

  /** If the images are read back, then the one block of a component holds its image. */
  lemma BlockHoldsImage(components: seq<string>, images: map<string, Image>, lines: seq<string>, i: nat, c: string)
    requires ValidImages(components, images) && OneBlockEach(components, lines) && c in components
    requires i < |lines| && BlockOf(components, lines[i]) == Some(c)
    requires Collect(Openings(components, FoundAgain(components, images, lines))) == Success(Chosen(components, images))
    ensures i < |FoundAgain(components, images, lines)|
    ensures ImageAt(FoundAgain(components, images, lines), i) == Some(images[c])
  {
    var again := FoundAgain(components, images, lines);
    BlockStillThere(components, images, lines, i);
    var openings := Openings(components, again);
    forall x | 0 <= x < |again| ensures openings[x].block == Some(c) <==> x == i {
      BlocksAgain(components, images, lines, x);
    }
    CollectsTheOnly(openings, i, c);
  }

  /** What the reader sees of the block: where its two lines are and what they hold. */
  lemma BlockLines(components: seq<string>, images: map<string, Image>, lines: seq<string>, i: nat, c: string)
    returns (j: nat, k: nat)
    requires CleanImages(components, images) && lines != [] && c in components
    requires i < |FoundAgain(components, images, lines)|
    requires ImageAt(FoundAgain(components, images, lines), i) == Some(images[c])
    ensures FirstShown(components, lines, i, NAME, j) && FirstShown(components, lines, i, DIGEST, k)
    ensures var n, d := Reread(components, images, lines, j), Reread(components, images, lines, k);
      && Contains(n, NAME) && Value(n, NAME) == images[c].name
      && Contains(d, DIGEST) && Value(d, DIGEST) == images[c].digest
  {
    var again := FoundAgain(components, images, lines);
    j, k := FirstAfter(again, i, NAME), FirstAfter(again, i, DIGEST);
    FirstAfterShown(components, images, lines, i, NAME);
    FirstAfterShown(components, images, lines, i, DIGEST);
  }

  lemma FirstShownOnce(components: seq<string>, lines: seq<string>, i: nat, marker: string, j: nat, k: nat)
    requires FirstShown(components, lines, i, marker, j) && FirstShown(components, lines, i, marker, k)
    ensures j == k
  {}

  lemma InOrderIfReadBack(
    components: seq<string>, a: map<string, Image>, b: map<string, Image>, lines: seq<string>, i: nat, c: string)
    requires Telling(components, a, b) && OneBlockEach(components, lines) && c in components
    requires i < |lines| && BlockOf(components, lines[i]) == Some(c)
    requires Collect(Openings(components, FoundAgain(components, a, lines))) == Success(Chosen(components, a))
    requires Collect(Openings(components, FoundAgain(components, b, lines))) == Success(Chosen(components, b))
    ensures HasBlock(components, lines, i)
  {
    BlockHoldsImage(components, a, lines, i, c);
    BlockHoldsImage(components, b, lines, i, c);
    var j, k := BlockLines(components, a, lines, i, c);
    var j', k' := BlockLines(components, b, lines, i, c);
    FirstShownOnce(components, lines, i, NAME, j, j');
    FirstShownOnce(components, lines, i, DIGEST, k, k');
    NameOwner(components, a, b, lines, c, j);
    DigestOwner(components, a, b, lines, c, k);
    OwnedLinesInOrder(components, lines, c, i, j, k);
  }

  // ---------- two choices that tell ----------

  function Sample(c: char): Image { Image([c], "sha256:" + seq(64, _ => c)) }

  lemma SampleIsClean(c: char)
    requires Hex(c)
    ensures CleanName(Sample(c).name) && ValidDigest(Sample(c).digest)
  {
    NeedsChar([c], NAME, 3);
    NeedsChar([c], DIGEST, 2);
    TrimFixed([c]);
    assert Sample(c).digest[..7] == "sha256:";
  }

  lemma SamplesDiffer(c: char, d: char)
    requires c != d
    ensures Sample(c).name != Sample(d).name && Sample(c).digest != Sample(d).digest
  {
    assert Sample(c).digest[7] == c && Sample(d).digest[7] == d;
    assert Sample(c).name[0] == c && Sample(d).name[0] == d;
  }

  function Samples(letters: map<string, char>): map<string, Image> { map c | c in letters :: Sample(letters[c]) }

  const LETTERS := map["api" := 'a', "worker" := 'b', "migrate" := 'c', "web" := 'd']
  const OTHER_LETTERS := map["api" := 'e', "worker" := 'f', "migrate" := '0', "web" := '1']

  lemma SamplesClean(components: seq<string>, letters: map<string, char>)
    requires forall c <- components :: c in letters && Hex(letters[c])
    ensures CleanImages(components, Samples(letters))
  {
    forall c <- components
      ensures CleanName(Samples(letters)[c].name) && ValidDigest(Samples(letters)[c].digest) {
      SampleIsClean(letters[c]);
    }
  }

  lemma LettersTell(components: seq<string>, first: map<string, char>, second: map<string, char>)
    requires forall c <- components :: c in first && Hex(first[c]) && c in second && Hex(second[c])
    requires forall c <- components :: first[c] != second[c]
    requires forall c, d | c in components && d in components && c != d :: first[c] != first[d]
    ensures Telling(components, Samples(first), Samples(second))
  {
    SamplesClean(components, first);
    SamplesClean(components, second);
    forall c <- components
      ensures Samples(first)[c].name != Samples(second)[c].name
        && Samples(first)[c].digest != Samples(second)[c].digest {
      SamplesDiffer(first[c], second[c]);
    }
    forall c, d | c in components && d in components && c != d
      ensures Samples(first)[c].name != Samples(first)[d].name && Samples(first)[c].digest != Samples(first)[d].digest {
      SamplesDiffer(first[c], first[d]);
    }
  }

  lemma SamplesTell()
    ensures Telling(COMPONENTS, Samples(LETTERS), Samples(OTHER_LETTERS))
  {
    LettersTell(COMPONENTS, LETTERS, OTHER_LETTERS);
  }

  // ---------- exactly ----------

  ghost predicate Preserves(components: seq<string>, text: string, images: map<string, Image>)
    requires ValidImages(components, images)
  {
    var written := Write(components, text, images);
    written.Success? && Read(components, written.value) == Success(Chosen(components, images))
  }

  lemma ReadyIfReadBack(components: seq<string>, text: string, a: map<string, Image>, b: map<string, Image>)
    requires Telling(components, a, b) && AllSeen(components, Split(text)) && OneBlockEach(components, Split(text))
    requires Preserves(components, text, a) && Preserves(components, text, b)
    ensures Ready(components, Split(text))
  {
    var lines := Split(text);
    WrittenReadsAs(components, text, a);
    WrittenReadsAs(components, text, b);
    forall i: nat | i < |lines| && BlockOf(components, lines[i]).Some? ensures HasBlock(components, lines, i) {
      BlockIsComponent(components, lines[i]);
      InOrderIfReadBack(components, a, b, lines, i, BlockOf(components, lines[i]).value);
    }
  }

  /** A file with exactly one block for each component keeps all clean images that are written to it if and only
      if its blocks are in order: newName first, then a digest line of its own, within three lines and before the
      next block. */
  lemma PreservesIffReady(text: string)
    requires AllSeen(COMPONENTS, Split(text)) && OneBlockEach(COMPONENTS, Split(text))
    ensures (forall images | CleanImages(COMPONENTS, images) :: Preserves(COMPONENTS, text, images))
            <==> Ready(COMPONENTS, Split(text))
  {
    if Ready(COMPONENTS, Split(text)) {
      forall images | CleanImages(COMPONENTS, images) ensures Preserves(COMPONENTS, text, images) {
        PromotionPreservesImages(COMPONENTS, text, images);
      }
    }
    if forall images | CleanImages(COMPONENTS, images) :: Preserves(COMPONENTS, text, images) {
      SamplesTell();
      ReadyIfReadBack(COMPONENTS, text, Samples(LETTERS), Samples(OTHER_LETTERS));
    }
  }

  // ---------- a file that does not ----------

  function Header(c: string): string { "- name: cloudsentinel-" + c }

  /** One block for each component; the first has its digest before its name, and the others have neither. */
  function Swapped(components: seq<string>): (lines: seq<string>)
    requires components != []
    ensures |lines| == |components| + 2 && lines[1] == "digest: x" && lines[2] == "newName: y"
    ensures forall i | 0 <= i < |components| :: lines[Place(i)] == Header(components[i])
  {
    [Header(components[0]), "digest: x", "newName: y"]
    + seq(|components| - 1, i requires 0 <= i < |components| - 1 => Header(components[i + 1]))
  }

  function Place(i: nat): nat { if i == 0 then 0 else i + 2 }

  /** Different names without white space at their ends or line breaks. */
  predicate PlainNames(components: seq<string>) {
    && (forall i, j | 0 <= i < j < |components| :: components[i] != components[j])
    && (forall i | 0 <= i < |components| :: PlainName(components[i]))
  }

  predicate PlainName(c: string) { c != "" && !JsSpace(c[|c| - 1]) && '\n' !in c }

  lemma ComponentsArePlain()
    ensures PlainNames(COMPONENTS)
  {
    assert PlainName("api") && PlainName("worker") && PlainName("migrate") && PlainName("web");
    assert "worker"[0] != "web"[2];
  }

  lemma HeaderOpens(components: seq<string>, c: string)
    requires c in components && PlainName(c)
    ensures BlockOf(components, Header(c)) == Some(c) && !EndsInCR(Header(c)) && '\n' !in Header(c)
  {
    TrimFixed(Header(c));
  }

  lemma MarkedLinesOpenNothing(components: seq<string>)
    ensures BlockOf(components, "digest: x") == None && BlockOf(components, "newName: y") == None
  {
    TrimFixed("digest: x");
    TrimFixed("newName: y");
  }

  lemma DigestAlone()
    ensures DigestOnly("digest: x")
  {
    assert "digest: x"[0..] == "digest: x";
    ContainsAt("digest: x", DIGEST, 0);
    NeedsChar("digest: x", NAME, 3);
  }

  /** Each component has its block at its place, and no other line opens one. */
  ghost predicate BlocksAtPlaces(components: seq<string>, lines: seq<string>) {
    && |lines| == |components| + 3
    && (forall i | 0 <= i < |components| :: BlockOf(components, lines[Place(i)]) == Some(components[i]))
    && BlockOf(components, lines[1]) == None && BlockOf(components, lines[2]) == None
    && BlockOf(components, lines[|lines| - 1]) == None
  }

  lemma SwappedBlocks(components: seq<string>)
    requires components != [] && PlainNames(components)
    ensures BlocksAtPlaces(components, Swapped(components) + [""])
  {
    var lines := Swapped(components) + [""];
    MarkedLinesOpenNothing(components);
    NothingInEmpty(components);
    forall i | 0 <= i < |components| ensures BlockOf(components, lines[Place(i)]) == Some(components[i]) {
      assert PlainName(components[i]);
      HeaderOpens(components, components[i]);
    }
  }

  lemma PlacesSeen(components: seq<string>, lines: seq<string>)
    requires BlocksAtPlaces(components, lines)
    ensures AllSeen(components, lines)
  {
    forall c <- components ensures exists x :: 0 <= x < |lines| && BlockOf(components, lines[x]) == Some(c) {
      var i :| 0 <= i < |components| && components[i] == c;
      assert BlockOf(components, lines[Place(i)]) == Some(c);
    }
  }

  lemma PlacedAt(components: seq<string>, lines: seq<string>, x: nat) returns (i: nat)
    requires BlocksAtPlaces(components, lines) && x < |lines| && BlockOf(components, lines[x]).Some?
    ensures i < |components| && x == Place(i) && BlockOf(components, lines[x]) == Some(components[i])
  {
    i := if x == 0 then 0 else x - 2;
    assert x != 1 && x != 2 && x != |lines| - 1;
    assert x == Place(i);
  }

  lemma PlacesDiffer(components: seq<string>, lines: seq<string>)
    requires BlocksAtPlaces(components, lines) && PlainNames(components)
    ensures OneBlockEach(components, lines)
  {
    forall x: nat, y: nat | x < |lines| && y < |lines| && BlockOf(components, lines[x]).Some?
      && BlockOf(components, lines[x]) == BlockOf(components, lines[y]) ensures x == y {
      var i := PlacedAt(components, lines, x);
      var j := PlacedAt(components, lines, y);
    }
  }

  lemma SwappedSplits(components: seq<string>)
    requires components != [] && PlainNames(components)
    ensures Split(Join(Swapped(components)) + "\n") == Swapped(components) + [""]
  {
    var lines := Swapped(components);
    forall x | 0 <= x < |lines| ensures '\n' !in lines[x] && !EndsInCR(lines[x]) {
      if x != 1 && x != 2 {
        var i := if x == 0 then 0 else x - 2;
        assert lines[Place(i)] == Header(components[i]) && PlainName(components[i]);
        HeaderOpens(components, components[i]);
      }
    }
    SplitJoin(lines);
    DropCRsNone(lines);
  }

  lemma SwappedIsNotReady(components: seq<string>, lines: seq<string>)
    requires |lines| > 1 && lines[1] == "digest: x" && BlockOf(components, lines[0]).Some?
    ensures !Ready(components, lines)
  {
    DigestAlone();
    assert !HasBlock(components, lines, 0);
  }

  /** A file with one block for each component that the writer accepts and whose images then do not all read back. */
  lemma SwappedFileIsNotReady()
    ensures var text := Join(Swapped(COMPONENTS)) + "\n";
      && AllSeen(COMPONENTS, Split(text)) && OneBlockEach(COMPONENTS, Split(text)) && !Ready(COMPONENTS, Split(text))
      && exists images :: CleanImages(COMPONENTS, images) && !Preserves(COMPONENTS, text, images)
  {
    var lines := Swapped(COMPONENTS) + [""];
    ComponentsArePlain();
    SwappedSplits(COMPONENTS);
    SwappedBlocks(COMPONENTS);
    PlacesSeen(COMPONENTS, lines);
    PlacesDiffer(COMPONENTS, lines);
    assert BlockOf(COMPONENTS, lines[Place(0)]) == Some(COMPONENTS[0]);
    SwappedIsNotReady(COMPONENTS, lines);
    PreservesIffReady(Join(Swapped(COMPONENTS)) + "\n");
  }
}

/** Exactly which files keep the images that are written to them, when a component may have several blocks: the
    reader keeps the last one, and refuses the file if any is incomplete. */
module RepeatedBlocks {
  import opened Wrappers
  import opened Text
  import opened Search
  import opened Lines
  import opened ImageRewriter
  import opened RewrittenLines
  import opened Promotion
  import opened RewriteTwice
  import opened PromotionExact

  /** After the rewrite both markers are found within three lines of line `i`. */
  ghost predicate Complete(components: seq<string>, lines: seq<string>, i: nat) {
    exists j: nat, k: nat :: BothShown(components, lines, i, j, k)
  }

  ghost predicate BothShown(components: seq<string>, lines: seq<string>, i: nat, j: nat, k: nat) {
    FirstShown(components, lines, i, NAME, j) && FirstShown(components, lines, i, DIGEST, k)
  }

  /** No later line opens a block for the same component. */
  ghost predicate LastOf(components: seq<string>, lines: seq<string>, i: nat)
    requires i < |lines|
  {
    forall x | i < x < |lines| :: BlockOf(components, lines[x]) != BlockOf(components, lines[i])
  }

  /** Every block is complete, and the last one of each component is in order. */
  ghost predicate LastReady(components: seq<string>, lines: seq<string>) {
    forall i: nat | i < |lines| && BlockOf(components, lines[i]).Some? ::
      Complete(components, lines, i) && (LastOf(components, lines, i) ==> HasBlock(components, lines, i))
  }

  // ---------- what the reader collects ----------

  predicate Filled(o: Opening) { o.block.Some? ==> o.image.Some? }

  lemma {:induction false} CollectsIff(openings: seq<Opening>)
    ensures Collect(openings).Success? <==> forall i | 0 <= i < |openings| :: Filled(openings[i])
    decreases |openings|
  {
    if openings != [] {
      var n := |openings| - 1;
      CollectsIff(openings[..n]);
      assert forall i | 0 <= i < n :: openings[..n][i] == openings[i];
    }
  }

  lemma {:induction false} CollectsKeys(openings: seq<Opening>, c: string)
    requires Collect(openings).Success?
    ensures c in Collect(openings).value <==> exists i :: 0 <= i < |openings| && openings[i].block == Some(c)
    decreases |openings|
  {
    if openings != [] {
      var n := |openings| - 1;
      CollectsKeys(openings[..n], c);
      assert forall i | 0 <= i < n :: openings[..n][i] == openings[i];
    }
  }

  lemma {:induction false} CollectsLast(openings: seq<Opening>, i: nat, c: string)
    requires i < |openings| && openings[i].block == Some(c) && Collect(openings).Success?
    requires forall x | i < x < |openings| :: openings[x].block != Some(c)
    ensures c in Collect(openings).value && openings[i].image == Some(Collect(openings).value[c])
    decreases |openings|
  {
    var n := |openings| - 1;
    if i < n { CollectsLast(openings[..n], i, c); }
  }

  lemma {:induction false} LastBlock(components: seq<string>, lines: seq<string>, c: string, i: nat) returns (last: nat)
    requires i < |lines| && BlockOf(components, lines[i]) == Some(c)
    ensures last < |lines| && BlockOf(components, lines[last]) == Some(c) && LastOf(components, lines, last)
    decreases |lines| - i
  {
    if x :| i < x < |lines| && BlockOf(components, lines[x]) == Some(c) {
      last := LastBlock(components, lines, c, x);
    } else {
      last := i;
    }
  }

  // ---------- if it is ready ----------

  lemma ShownSurvives(components: seq<string>, images: map<string, Image>, lines: seq<string>, x: nat, marker: string)
    requires CleanImages(components, images) && x < |lines| && marker in {NAME, DIGEST}
    requires Shows(components, lines, x, marker)
    ensures x < |FoundAgain(components, images, lines)| && Contains(FoundAgain(components, images, lines)[x], marker)
  {
    ShowsAgain(components, images, lines, x, marker);
    NothingInEmpty(components);
    FoundAt(components, images, lines, x);
    ShownIsFound(components, images, lines, x, marker);
  }

  lemma FoundWithinThree(lines: seq<string>, i: nat, marker: string, j: nat)
    requires i < j <= i + 3 && j < |lines| && Contains(lines[j], marker)
    ensures FirstAfter(lines, i, marker) < |lines|
  {}

  lemma CompleteIsFilled(components: seq<string>, images: map<string, Image>, lines: seq<string>, i: nat)
    requires CleanImages(components, images) && i < |lines| && Complete(components, lines, i)
    ensures i < |FoundAgain(components, images, lines)| && ImageAt(FoundAgain(components, images, lines), i).Some?
  {
    var j: nat, k: nat :| BothShown(components, lines, i, j, k);
    ShownSurvives(components, images, lines, j, NAME);
    ShownSurvives(components, images, lines, k, DIGEST);
    FoundWithinThree(FoundAgain(components, images, lines), i, NAME, j);
    FoundWithinThree(FoundAgain(components, images, lines), i, DIGEST, k);
  }

  /** Every block that is found again is filled. */
  lemma FilledAgain(components: seq<string>, images: map<string, Image>, lines: seq<string>)
    requires CleanImages(components, images) && lines != [] && LastReady(components, lines)
    ensures Collect(Openings(components, FoundAgain(components, images, lines))).Success?
  {
    var again := FoundAgain(components, images, lines);
    var openings := Openings(components, again);
    forall x | 0 <= x < |openings| ensures Filled(openings[x]) {
      BlocksAgain(components, images, lines, x);
      if openings[x].block.Some? { CompleteIsFilled(components, images, lines, x); }
    }
    CollectsIff(openings);
  }

  /** The last block of a component holds its image. */
  lemma LastHolds(components: seq<string>, images: map<string, Image>, lines: seq<string>, c: string)
    requires CleanImages(components, images) && lines != [] && LastReady(components, lines)
    requires AllSeen(components, lines) && c in components
    ensures var r := Collect(Openings(components, FoundAgain(components, images, lines)));
      r.Success? && c in r.value && r.value[c] == images[c]
  {
    var again := FoundAgain(components, images, lines);
    var x :| 0 <= x < |lines| && BlockOf(components, lines[x]) == Some(c);
    var i := LastBlock(components, lines, c, x);
    var j: nat, k: nat :| Block(components, lines, i, j, k);
    ImageRereads(components, images, lines, i, j, k);
    FilledAgain(components, images, lines);
    LastAgain(components, images, lines, i, c);
    CollectsLast(Openings(components, again), i, c);
  }

  /** A last block stays the last one. */
  lemma LastAgain(components: seq<string>, images: map<string, Image>, lines: seq<string>, i: nat, c: string)
    requires ValidImages(components, images) && i < |lines| && BlockOf(components, lines[i]) == Some(c)
    requires LastOf(components, lines, i)
    ensures i < |FoundAgain(components, images, lines)|
    ensures var openings := Openings(components, FoundAgain(components, images, lines));
      openings[i].block == Some(c) && forall x | i < x < |openings| :: openings[x].block != Some(c)
  {
    BlockStillThere(components, images, lines, i);
    var openings := Openings(components, FoundAgain(components, images, lines));
    BlocksAgain(components, images, lines, i);
    forall x | i < x < |openings| ensures openings[x].block != Some(c) { BlocksAgain(components, images, lines, x); }
  }

  lemma ReadsChosen(components: seq<string>, images: map<string, Image>, lines: seq<string>)
    requires CleanImages(components, images) && lines != []
    requires LastReady(components, lines) && AllSeen(components, lines)
    ensures Collect(Openings(components, FoundAgain(components, images, lines))) == Success(Chosen(components, images))
  {
    var openings := Openings(components, FoundAgain(components, images, lines));
    FilledAgain(components, images, lines);
    var read := Collect(openings).value;
    forall c <- components ensures c in read && read[c] == images[c] { LastHolds(components, images, lines, c); }
    forall c <- read ensures c in components {
      CollectsKeys(openings, c);
      var i :| 0 <= i < |openings| && openings[i].block == Some(c);
      BlockIsComponent(components, FoundAgain(components, images, lines)[i]);
    }
    ChosenIs(components, images, read);
  }

  lemma PreservesIfReady(components: seq<string>, text: string, images: map<string, Image>)
    requires CleanImages(components, images) && AllSeen(components, Split(text)) && LastReady(components, Split(text))
    ensures Preserves(components, text, images)
  {
    WrittenReadsAs(components, text, images);
    ReadsChosen(components, images, Split(text));
  }

  // ---------- only if it is ready ----------

  lemma FilledIsComplete(components: seq<string>, images: map<string, Image>, lines: seq<string>, i: nat)
    requires CleanImages(components, images) && lines != [] && i < |FoundAgain(components, images, lines)|
    requires ImageAt(FoundAgain(components, images, lines), i).Some?
    ensures Complete(components, lines, i)
  {
    var again := FoundAgain(components, images, lines);
    FirstAfterShown(components, images, lines, i, NAME);
    FirstAfterShown(components, images, lines, i, DIGEST);
    assert BothShown(components, lines, i, FirstAfter(again, i, NAME), FirstAfter(again, i, DIGEST));
  }

  lemma CompleteIfRead(components: seq<string>, images: map<string, Image>, lines: seq<string>, i: nat)
    requires CleanImages(components, images) && i < |lines| && BlockOf(components, lines[i]).Some?
    requires Collect(Openings(components, FoundAgain(components, images, lines))).Success?
    ensures Complete(components, lines, i)
  {
    var openings := Openings(components, FoundAgain(components, images, lines));
    BlockStillThere(components, images, lines, i);
    BlocksAgain(components, images, lines, i);
    CollectsIff(openings);
    assert Filled(openings[i]);
    FilledIsComplete(components, images, lines, i);
  }

  /** Both lines belong to the last block of the component, so that block is in order. */
  lemma LastLinesInOrder(components: seq<string>, lines: seq<string>, c: string, i: nat, j: nat, k: nat)
    requires i < |lines| && BlockOf(components, lines[i]) == Some(c) && LastOf(components, lines, i)
    requires BothShown(components, lines, i, j, k)
    requires ActiveAt(components, lines, j) == Some(c) && BlockOf(components, lines[j]) == None
    requires ActiveAt(components, lines, k) == Some(c) && BlockOf(components, lines[k]) == None && DigestOnly(lines[k])
    ensures Block(components, lines, i, j, k)
  {
    OpenedHere(components, lines, c, i, j);
    OpenedHere(components, lines, c, i, k);
    FirstNameShown(components, lines, i, j);
  }

  lemma FirstNameShown(components: seq<string>, lines: seq<string>, i: nat, j: nat)
    requires FirstShown(components, lines, i, NAME, j)
    ensures Contains(lines[j], NAME) && forall z | i < z < j :: !Contains(lines[z], NAME)
  {
    forall z | i < z < j ensures !Contains(lines[z], NAME) {
      assert !Shows(components, lines, z, NAME);
    }
  }

  /** What is open after the last block of a component is that block. */
  lemma OpenedHere(components: seq<string>, lines: seq<string>, c: string, i: nat, x: nat)
    requires i < x < |lines| && BlockOf(components, lines[i]) == Some(c) && LastOf(components, lines, i)
    requires ActiveAt(components, lines, x) == Some(c)
    ensures forall z | i < z < x :: Calm(components, lines[z])
  {
    var o := ActiveIsOpen(components, lines, c, x);
    assert o <= i;
    if o < i { assert Calm(components, lines[i]); }
  }

  lemma LastHoldsImage(components: seq<string>, images: map<string, Image>, lines: seq<string>, i: nat, c: string)
    requires ValidImages(components, images) && c in components && IsLast(components, lines, i, c)
    requires Collect(Openings(components, FoundAgain(components, images, lines))) == Success(Chosen(components, images))
    ensures i < |FoundAgain(components, images, lines)|
    ensures ImageAt(FoundAgain(components, images, lines), i) == Some(images[c])
  {
    LastAgain(components, images, lines, i, c);
    CollectsLast(Openings(components, FoundAgain(components, images, lines)), i, c);
  }

  ghost predicate IsLast(components: seq<string>, lines: seq<string>, i: nat, c: string) {
    i < |lines| && BlockOf(components, lines[i]) == Some(c) && LastOf(components, lines, i)
  }

  lemma LastInOrder(
    components: seq<string>, a: map<string, Image>, b: map<string, Image>, lines: seq<string>, i: nat, c: string)
    requires Telling(components, a, b) && c in components && IsLast(components, lines, i, c)
    requires Collect(Openings(components, FoundAgain(components, a, lines))) == Success(Chosen(components, a))
    requires Collect(Openings(components, FoundAgain(components, b, lines))) == Success(Chosen(components, b))
    ensures HasBlock(components, lines, i)
  {
    LastHoldsImage(components, a, lines, i, c);
    LastHoldsImage(components, b, lines, i, c);
    var j, k := BlockLines(components, a, lines, i, c);
    var j', k' := BlockLines(components, b, lines, i, c);
    FirstShownOnce(components, lines, i, NAME, j, j');
    FirstShownOnce(components, lines, i, DIGEST, k, k');
    NameOwner(components, a, b, lines, c, j);
    DigestOwner(components, a, b, lines, c, k);
    LastLinesInOrder(components, lines, c, i, j, k);
  }

  lemma SeenIfWritten(components: seq<string>, text: string, images: map<string, Image>)
    requires ValidImages(components, images) && Write(components, text, images).Success?
    ensures AllSeen(components, Split(text))
  {}

  lemma ReadyIfPreserved(components: seq<string>, text: string, a: map<string, Image>, b: map<string, Image>)
    requires Telling(components, a, b) && Preserves(components, text, a) && Preserves(components, text, b)
    ensures AllSeen(components, Split(text)) && LastReady(components, Split(text))
  {
    var lines := Split(text);
    SeenIfWritten(components, text, a);
    WrittenReadsAs(components, text, a);
    WrittenReadsAs(components, text, b);
    forall i: nat | i < |lines| && BlockOf(components, lines[i]).Some?
      ensures Complete(components, lines, i) && (LastOf(components, lines, i) ==> HasBlock(components, lines, i))
    {
      BlockIsComponent(components, lines[i]);
      CompleteIfRead(components, a, lines, i);
      if LastOf(components, lines, i) { LastInOrder(components, a, b, lines, i, BlockOf(components, lines[i]).value); }
    }
  }

  /** Any file whatever keeps all clean images that are written to it if and only if every component has a block, every
      block is complete, and the last block of each component is in order. */
  lemma PreservesIff(text: string)
    ensures (forall images | CleanImages(COMPONENTS, images) :: Preserves(COMPONENTS, text, images))
            <==> AllSeen(COMPONENTS, Split(text)) && LastReady(COMPONENTS, Split(text))
  {
    if AllSeen(COMPONENTS, Split(text)) && LastReady(COMPONENTS, Split(text)) {
      forall images | CleanImages(COMPONENTS, images) ensures Preserves(COMPONENTS, text, images) {
        PreservesIfReady(COMPONENTS, text, images);
      }
    }
    if forall images | CleanImages(COMPONENTS, images) :: Preserves(COMPONENTS, text, images) {
      SamplesTell();
      ReadyIfPreserved(COMPONENTS, text, Samples(LETTERS), Samples(OTHER_LETTERS));
    }
  }
}

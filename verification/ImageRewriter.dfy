/** The line-oriented image rewriter of the two GitOps scripts, and the reader that must undo it. */
module ImageRewriter {
  import opened Wrappers
  import opened Text
  import opened Search
  import opened Lines

  datatype Image = Image(name: string, digest: string)

  datatype Error = InvalidDigest(component: string) | MissingBlocks | IncompleteBlock(component: string)
    | NoSuchFile(path: string) | InvalidArgument(key: string) | MissingArgument(key: string) | ExplicitImages

  const NAME := "newName:"
  const DIGEST := "digest:"

  /** The components the first script knows, in its order. */
  const COMPONENTS := ["api", "worker", "migrate", "web"]

  /** The component a line opens a block for: between white space, "- name: cloudsentinel-" and its name. */
  function BlockOf(components: seq<string>, line: string): Option<string> {
    var t := Trim(line, JsSpace);
    var prefix := "- name: cloudsentinel-";
    if StartsWith(t, prefix) && t[|prefix|..] in components then Some(t[|prefix|..]) else None
  }

  predicate Hex(c: char) { '0' <= c <= '9' || 'a' <= c <= 'f' }

  /** /^sha256:[0-9a-f]{64}$/. */
  predicate ValidDigest(digest: string) {
    StartsWith(digest, "sha256:") && |digest| == 71 && forall i | 7 <= i < 71 :: Hex(digest[i])
  }

  predicate ValidImages(components: seq<string>, images: map<string, Image>) {
    forall c <- components :: c in images && ValidDigest(images[c].digest)
  }

  // ---------- the writer ----------

  function NextActive(components: seq<string>, active: Option<string>, line: string): Option<string> {
    if BlockOf(components, line).Some? then BlockOf(components, line)
    else if active.Some? && !Contains(line, NAME) && Contains(line, DIGEST) then None
    else active
  }

  /** The block that is open before line `i`. */
  function ActiveAt(components: seq<string>, lines: seq<string>, i: nat): (a: Option<string>)
    requires i <= |lines|
    ensures a.Some? ==> a.value in components
  {
    if i == 0 then None else NextActive(components, ActiveAt(components, lines, i - 1), lines[i - 1])
  }

  function NewLine(components: seq<string>, images: map<string, Image>, active: Option<string>, line: string): string
    requires ValidImages(components, images) && (active.Some? ==> active.value in components)
  {
    if BlockOf(components, line).Some? || active.None? then line
    else if Contains(line, NAME) then Indent(line) + "newName: " + images[active.value].name
    else if Contains(line, DIGEST) then Indent(line) + "digest: " + images[active.value].digest
    else line
  }

  /** The file's lines after the rewrite. */
  function Rewritten(components: seq<string>, images: map<string, Image>, lines: seq<string>): (out: seq<string>)
    requires ValidImages(components, images)
    ensures |out| == |lines|
    ensures forall i | 0 <= i < |lines| ::
      out[i] == NewLine(components, images, ActiveAt(components, lines, i), lines[i])
  {
    seq(|lines|, i requires 0 <= i < |lines| =>
      NewLine(components, images, ActiveAt(components, lines, i), lines[i]))
  }

  predicate AllSeen(components: seq<string>, lines: seq<string>) {
    forall c <- components :: exists i :: 0 <= i < |lines| && BlockOf(components, lines[i]) == Some(c)
  }

  /** writeImages on the text of the file. */
  function Write(components: seq<string>, text: string, images: map<string, Image>): Result<string, Error> {
    if !ValidImages(components, images) then Failure(InvalidDigest(FirstInvalid(components, images)))
    else if !AllSeen(components, Split(text)) then Failure(MissingBlocks)
    else Success(Print(Rewritten(components, images, Split(text))))
  }

  function FirstInvalid(components: seq<string>, images: map<string, Image>): string
    requires !ValidImages(components, images)
  {
    if components[0] !in images || !ValidDigest(images[components[0]].digest) then components[0]
    else FirstInvalid(components[1..], images)
  }

  // ---------- the reader ----------

  /** The first of at most three lines after line `i` that contains the marker, or |lines| if there is none. */
  function FirstAfter(lines: seq<string>, i: nat, marker: string): (j: nat)
    requires i < |lines|
    ensures j < |lines| ==> i < j <= i + 3 && Contains(lines[j], marker)
    ensures forall x | i < x <= i + 3 && x < |lines| && x < j :: !Contains(lines[x], marker)
    ensures j <= |lines|
  {
    if i + 1 < |lines| && Contains(lines[i + 1], marker) then i + 1
    else if i + 2 < |lines| && Contains(lines[i + 2], marker) then i + 2
    else if i + 3 < |lines| && Contains(lines[i + 3], marker) then i + 3
    else |lines|
  }

  function Value(line: string, marker: string): string
    requires Contains(line, marker)
  {
    Trim(Between(line, marker), JsSpace)
  }

  /** The image that the block opened at line `i` holds. */
  function ImageAt(lines: seq<string>, i: nat): Option<Image>
    requires i < |lines|
  {
    var j, k := FirstAfter(lines, i, NAME), FirstAfter(lines, i, DIGEST);
    if j < |lines| && k < |lines| then Some(Image(Value(lines[j], NAME), Value(lines[k], DIGEST))) else None
  }

  /** What the reader finds at one line: the block it opens, if any, and the image that such a block holds. */
  datatype Opening = Opening(block: Option<string>, image: Option<Image>)

  function Openings(components: seq<string>, lines: seq<string>): (openings: seq<Opening>)
    ensures |openings| == |lines|
    ensures forall x | 0 <= x < |lines| :: openings[x] == Opening(BlockOf(components, lines[x]), ImageAt(lines, x))
  {
    seq(|lines|, x requires 0 <= x < |lines| => Opening(BlockOf(components, lines[x]), ImageAt(lines, x)))
  }

  /** The loop of readImages: a later block of a component replaces an earlier one. */
  function Collect(openings: seq<Opening>): Result<map<string, Image>, Error> {
    if openings == [] then Success(map[])
    else
      var before, last := Collect(openings[..|openings| - 1]), openings[|openings| - 1];
      if before.Failure? || last.block.None? then before
      else if last.image.None? then Failure(IncompleteBlock(last.block.value))
      else Success(before.value[last.block.value := last.image.value])
  }

  /** readImages on the text of the file. */
  function Read(components: seq<string>, text: string): Result<map<string, Image>, Error> {
    var r := Collect(Openings(components, Split(text)));
    if r.Success? && exists c <- components :: c !in r.value then Failure(MissingBlocks) else r
  }
}

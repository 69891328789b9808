/** The two scripts that work on kustomization files: loops over lines, and a file system they write to. */
module GitopsImages {
  import opened Wrappers
  import opened Text
  import opened Search
  import opened Lines
  import opened ImageRewriter
  import opened RewrittenLines
  import opened Promotion
  import opened PromotionExact
  import opened RepeatedBlocks
  import opened RewriteTwice
  import opened Copying

  const DATA_COMPONENTS := ["mysql", "redis"]

  /** The keys that give images explicitly, in the order they are asked for. */
  const EXPLICIT := ["registry", "api-digest", "worker-digest", "migrate-digest", "web-digest"]

  /** Command-line values by key. An empty value counts as missing. */
  predicate Given(args: map<string, string>, key: string) { key in args && args[key] != "" }

  /** registry.replace(/\/+$/, ""). */
  function NoSlash(registry: string): string {
    if registry != "" && registry[|registry| - 1] == '/' then NoSlash(registry[..|registry| - 1]) else registry
  }

  /** The images of a registry with the given digests; a component without a digest has no image. */
  function RegistryImages(components: seq<string>, registry: string, digests: map<string, string>): map<string, Image> {
    map c | c in components && c in digests :: Image(NoSlash(registry) + "/cloudsentinel-" + c, digests[c])
  }

  /** The digests given on the command line, under `component-digest`. */
  function GivenDigests(components: seq<string>, args: map<string, string>): map<string, string> {
    map c | c in components && Given(args, c + "-digest") :: args[c + "-digest"]
  }

  function ReadFile(components: seq<string>, files: map<string, string>, path: string)
    : Result<map<string, Image>, Error>
  {
    if path in files then Read(components, files[path]) else Failure(NoSuchFile(path))
  }

  /** The text the file is to have. The images are checked before the file is opened. */
  function NewText(components: seq<string>, files: map<string, string>, path: string, images: map<string, Image>)
    : Result<string, Error>
  {
    if !ValidImages(components, images) then Failure(InvalidDigest(FirstInvalid(components, images)))
    else if path in files then Write(components, files[path], images)
    else Failure(NoSuchFile(path))
  }

  /** parseArgs: keys that start with two dashes, each followed by its value; a later value replaces an earlier one. */
  function ParseArgs(values: seq<string>, args: map<string, string>): Result<map<string, string>, Error>
    decreases |values|
  {
    if values == [] then Success(args)
    else if !StartsWith(values[0], "--") || |values| == 1 then Failure(InvalidArgument(values[0]))
    else ParseArgs(values[2..], args[values[0][2..] := values[1]])
  }

  /** The arguments written out again, in any order of the keys. */
  function Written(keys: seq<string>, args: map<string, string>): seq<string>
    requires forall key <- keys :: key in args
  {
    if keys == [] then [] else ["--" + keys[0], args[keys[0]]] + Written(keys[1..], args)
  }

  function Selected(keys: seq<string>, args: map<string, string>): map<string, string>
    requires forall key <- keys :: key in args
  {
    map key | key in keys :: args[key]
  }

  /** Arguments that are written out are read back, whatever was given before them. */
  lemma {:induction false} WrittenArgsParse(keys: seq<string>, args: map<string, string>, before: map<string, string>)
    requires forall key <- keys :: key in args
    ensures ParseArgs(Written(keys, args), before) == Success(before + Selected(keys, args))
    decreases |keys|
  {
    if keys != [] {
      var key := keys[0];
      var next := before[key := args[key]];
      assert ("--" + key)[2..] == key && ("--" + key)[..2] == "--";
      assert Written(keys, args)[2..] == Written(keys[1..], args);
      WrittenArgsParse(keys[1..], args, next);
      assert before + Selected(keys, args) == next + Selected(keys[1..], args);
    } else {
      assert before + Selected(keys, args) == before;
    }
  }

  /** The argument at an even place that does not start with two dashes, or has no value after it. */
  ghost predicate Malformed(values: seq<string>, k: nat) {
    k < |values| && k % 2 == 0 && (!("--" <= values[k]) || k + 1 == |values|)
  }

  lemma MalformedLater(values: seq<string>, k: nat)
    requires |values| >= 2
    ensures k >= 2 ==> (Malformed(values, k) <==> Malformed(values[2..], k - 2))
    ensures Malformed(values, k) ==> k == 0 || k >= 2
  {}

  /** A command line is refused exactly when it has a malformed argument, and the first one is named. */
  lemma {:induction false} ParseArgsFailsIff(values: seq<string>, args: map<string, string>) returns (first: nat)
    ensures ParseArgs(values, args).Failure? <==> exists k: nat :: Malformed(values, k)
    ensures ParseArgs(values, args).Failure? ==>
      && Malformed(values, first) && ParseArgs(values, args).error == InvalidArgument(values[first])
      && forall k: nat | k < first :: !Malformed(values, k)
    decreases |values|
  {
    first := 0;
    if values != [] && !Malformed(values, 0) {
      var rest := values[2..];
      var args' := args[values[0][2..] := values[1]];
      var later := ParseArgsFailsIff(rest, args');
      first := later + 2;
      forall k: nat ensures Malformed(values, k) ==> k >= 2 && Malformed(rest, k - 2) { MalformedLater(values, k); }
      if ParseArgs(rest, args').Failure? { MalformedLater(values, first); }
    }
  }

  function FirstMissing(args: map<string, string>, keys: seq<string>): (missing: Option<string>)
    ensures missing == None <==> forall key <- keys :: Given(args, key)
    ensures missing.Some? ==> missing.value in keys && !Given(args, missing.value)
  {
    if keys == [] then None
    else if Given(args, keys[0]) then FirstMissing(args, keys[1..])
    else Some(keys[0])
  }

  lemma {:induction false} FirstMissingAt(args: map<string, string>, keys: seq<string>, i: nat)
    requires i < |keys| && !Given(args, keys[i]) && forall k | 0 <= k < i :: Given(args, keys[k])
    ensures FirstMissing(args, keys) == Some(keys[i])
    decreases i
  {
    if i > 0 {
      assert forall k | 0 <= k < i - 1 :: keys[1..][k] == keys[k + 1];
      FirstMissingAt(args, keys[1..], i - 1);
    }
  }

  /** The images the command line asks for: those of another file, or those of a registry. */
  function Wanted(args: map<string, string>, files: map<string, string>): Result<map<string, Image>, Error> {
    if Given(args, "copy-from") then
      if exists key <- EXPLICIT :: Given(args, key) then Failure(ExplicitImages)
      else ReadFile(COMPONENTS, files, args["copy-from"])
    else if FirstMissing(args, EXPLICIT).Some? then Failure(MissingArgument(FirstMissing(args, EXPLICIT).value))
    else
      assert EXPLICIT[0] == "registry" && Given(args, EXPLICIT[0]);
      Success(RegistryImages(COMPONENTS, args["registry"], GivenDigests(COMPONENTS, args)))
  }

  // ---------- the images of a registry, read back ----------

  /** `base` is the registry without the slashes at its end. */
  ghost predicate BaseOf(registry: string, base: string) {
    && base <= registry && (forall i | |base| <= i < |registry| :: registry[i] == '/')
    && (base == "" || base[|base| - 1] != '/')
  }

  ghost predicate CleanBase(components: seq<string>, base: string) {
    forall c <- components :: CleanName(base + "/cloudsentinel-" + c)
  }

  /** Read back, the text holds for each component the image of that name in the registry, with its digest. */
  ghost predicate HoldsImages(components: seq<string>, text: string, base: string, digests: map<string, string>) {
    var images := Read(components, text);
    && images.Success? && (forall c :: c in images.value <==> c in components)
    && forall c <- components ::
         c in digests && images.value[c].name == base + "/cloudsentinel-" + c && images.value[c].digest == digests[c]
  }

  /** The file holds the images of the registry, if its blocks were in order and their names are clean. */
  ghost predicate RegistryWritten(
    components: seq<string>, path: string, registry: string, digests: map<string, string>,
    before: map<string, string>, after: map<string, string>)
  {
    && path in before && path in after && after == before[path := after[path]]
    && (LastReady(components, Split(before[path])) ==>
          forall base | BaseOf(registry, base) && CleanBase(components, base) ::
            HoldsImages(components, after[path], base, digests))
  }

  lemma BaseIs(registry: string, base: string)
    requires BaseOf(registry, base)
    ensures NoSlash(registry) == base
  {
    NoSlashIs(base, registry[|base|..]);
    assert base + registry[|base|..] == registry;
  }

  lemma RegistryReadsBack(
    components: seq<string>, text: string, registry: string, base: string, digests: map<string, string>)
    requires var images := RegistryImages(components, registry, digests);
      ValidImages(components, images) && Write(components, text, images).Success?
    requires LastReady(components, Split(text)) && BaseOf(registry, base) && CleanBase(components, base)
    ensures var images := RegistryImages(components, registry, digests);
      HoldsImages(components, Write(components, text, images).value, base, digests)
  {
    var images := RegistryImages(components, registry, digests);
    BaseIs(registry, base);
    forall c <- components ensures CleanName(images[c].name) { assert CleanName(base + "/cloudsentinel-" + c); }
    PreservesIfReady(components, text, images);
  }

  lemma RegistryIsWritten(
    components: seq<string>, path: string, registry: string, digests: map<string, string>,
    before: map<string, string>, after: map<string, string>)
    requires WrittenTo(components, path, RegistryImages(components, registry, digests), before, after, Success(()))
    ensures RegistryWritten(components, path, registry, digests, before, after)
  {
    if LastReady(components, Split(before[path])) {
      forall base | BaseOf(registry, base) && CleanBase(components, base)
        ensures HoldsImages(components, after[path], base, digests) {
        RegistryReadsBack(components, before[path], registry, base, digests);
      }
    }
  }

  ghost predicate Absent(args: map<string, string>, key: string) { key !in args || args[key] == "" }

  /** What the first script does with its arguments: the file is asked for first; a file to copy from excludes the five
      explicit arguments, which are otherwise asked for in this order; and on success, without a file to copy from, the
      file holds the four images of the registry. An error changes nothing. */
  ghost predicate Answered(
    args: map<string, string>, before: map<string, string>, after: map<string, string>, r: Result<(), Error>)
  {
    && (r.Failure? ==> after == before)
    && if Absent(args, "file") then r == Failure(MissingArgument("file"))
       else if !Absent(args, "copy-from") then
         (!Absent(args, "registry") || !Absent(args, "api-digest") || !Absent(args, "worker-digest")
          || !Absent(args, "migrate-digest") || !Absent(args, "web-digest")) ==> r == Failure(ExplicitImages)
       else if Absent(args, "registry") then r == Failure(MissingArgument("registry"))
       else if Absent(args, "api-digest") then r == Failure(MissingArgument("api-digest"))
       else if Absent(args, "worker-digest") then r == Failure(MissingArgument("worker-digest"))
       else if Absent(args, "migrate-digest") then r == Failure(MissingArgument("migrate-digest"))
       else if Absent(args, "web-digest") then r == Failure(MissingArgument("web-digest"))
       else
         r.Success? ==>
           RegistryWritten(["api", "worker", "migrate", "web"], args["file"], args["registry"],
                           map["api" := args["api-digest"], "worker" := args["worker-digest"],
                               "migrate" := args["migrate-digest"], "web" := args["web-digest"]],
                           before, after)
  }

  /** The same for the second script, which has no file to copy from. */
  ghost predicate DataAnswered(
    args: map<string, string>, before: map<string, string>, after: map<string, string>, r: Result<(), Error>)
  {
    && (r.Failure? ==> after == before)
    && if Absent(args, "file") then r == Failure(MissingArgument("file"))
       else if Absent(args, "registry") then r == Failure(MissingArgument("registry"))
       else if Absent(args, "mysql-digest") then r == Failure(MissingArgument("mysql-digest"))
       else if Absent(args, "redis-digest") then r == Failure(MissingArgument("redis-digest"))
       else
         r.Success? ==>
           RegistryWritten(["mysql", "redis"], args["file"], args["registry"],
                           map["mysql" := args["mysql-digest"], "redis" := args["redis-digest"]], before, after)
  }

  lemma FiveAskedFor(args: map<string, string>)
    ensures FirstMissing(args, EXPLICIT) ==
      if Absent(args, "registry") then Some("registry")
      else if Absent(args, "api-digest") then Some("api-digest")
      else if Absent(args, "worker-digest") then Some("worker-digest")
      else if Absent(args, "migrate-digest") then Some("migrate-digest")
      else if Absent(args, "web-digest") then Some("web-digest")
      else None
  {
    ExplicitKeys();
    if !forall i | 0 <= i < 5 :: Given(args, EXPLICIT[i]) {
      var first := if Absent(args, "registry") then 0 else if Absent(args, "api-digest") then 1
                   else if Absent(args, "worker-digest") then 2 else if Absent(args, "migrate-digest") then 3 else 4;
      assert forall k | 0 <= k < first :: Given(args, EXPLICIT[k]);
      FirstMissingAt(args, EXPLICIT, first);
    }
  }

  lemma ExplicitKeys()
    ensures |EXPLICIT| == 5 && EXPLICIT[0] == "registry" && EXPLICIT[1] == "api-digest"
    ensures EXPLICIT[2] == "worker-digest" && EXPLICIT[3] == "migrate-digest" && EXPLICIT[4] == "web-digest"
  {}

  lemma ExplicitGiven(args: map<string, string>)
    ensures (exists key <- EXPLICIT :: Given(args, key)) <==>
      !Absent(args, "registry") || !Absent(args, "api-digest") || !Absent(args, "worker-digest")
      || !Absent(args, "migrate-digest") || !Absent(args, "web-digest")
  {
    ExplicitKeys();
    forall key <- EXPLICIT ensures exists i :: 0 <= i < 5 && EXPLICIT[i] == key {}
    assert forall i | 0 <= i < 5 :: EXPLICIT[i] in EXPLICIT;
  }

  lemma FourDigests(args: map<string, string>)
    requires !Absent(args, "api-digest") && !Absent(args, "worker-digest")
    requires !Absent(args, "migrate-digest") && !Absent(args, "web-digest")
    ensures GivenDigests(COMPONENTS, args)
         == map["api" := args["api-digest"], "worker" := args["worker-digest"],
                "migrate" := args["migrate-digest"], "web" := args["web-digest"]]
  {
    assert "api" + "-digest" == "api-digest" && "worker" + "-digest" == "worker-digest";
    assert "migrate" + "-digest" == "migrate-digest" && "web" + "-digest" == "web-digest";
    assert COMPONENTS[0] == "api" && COMPONENTS[1] == "worker" && COMPONENTS[2] == "migrate" && COMPONENTS[3] == "web";
  }

  /** The account of the errors and of the file written, in terms of the arguments themselves. */
  lemma PromotedIsAnswered(
    args: map<string, string>, before: map<string, string>, after: map<string, string>, r: Result<(), Error>)
    requires Promoted(args, before, after, r)
    ensures Answered(args, before, after, r)
  {
    ExplicitGiven(args);
    FiveAskedFor(args);
    if !Absent(args, "file") && Absent(args, "copy-from") && FirstMissing(args, EXPLICIT) == None && r.Success? {
      FourDigests(args);
      RegistryIsWritten(COMPONENTS, args["file"], args["registry"], GivenDigests(COMPONENTS, args), before, after);
    }
  }

  lemma FourAskedFor(args: map<string, string>)
    ensures FirstMissing(args, DATA_KEYS) ==
      if Absent(args, "file") then Some("file")
      else if Absent(args, "registry") then Some("registry")
      else if Absent(args, "mysql-digest") then Some("mysql-digest")
      else if Absent(args, "redis-digest") then Some("redis-digest")
      else None
  {
    assert |DATA_KEYS| == 4 && DATA_KEYS[0] == "file" && DATA_KEYS[1] == "registry";
    assert DATA_KEYS[2] == "mysql-digest" && DATA_KEYS[3] == "redis-digest";
    if !forall i | 0 <= i < 4 :: Given(args, DATA_KEYS[i]) {
      var first := if Absent(args, "file") then 0 else if Absent(args, "registry") then 1
                   else if Absent(args, "mysql-digest") then 2 else 3;
      assert forall k | 0 <= k < first :: Given(args, DATA_KEYS[k]);
      FirstMissingAt(args, DATA_KEYS, first);
    }
  }

  lemma TwoDigests(args: map<string, string>)
    requires !Absent(args, "mysql-digest") && !Absent(args, "redis-digest")
    ensures GivenDigests(DATA_COMPONENTS, args)
         == map["mysql" := args["mysql-digest"], "redis" := args["redis-digest"]]
  {
    assert "mysql" + "-digest" == "mysql-digest" && "redis" + "-digest" == "redis-digest";
    assert DATA_COMPONENTS[0] == "mysql" && DATA_COMPONENTS[1] == "redis";
  }

  lemma DataPromotedIsAnswered(
    args: map<string, string>, before: map<string, string>, after: map<string, string>, r: Result<(), Error>)
    requires DataPromoted(args, before, after, r)
    ensures DataAnswered(args, before, after, r)
  {
    FourAskedFor(args);
    if FirstMissing(args, DATA_KEYS) == None && r.Success? {
      TwoDigests(args);
      RegistryIsWritten(
        DATA_COMPONENTS, args["file"], args["registry"], GivenDigests(DATA_COMPONENTS, args), before, after);
    }
  }

  // ---------- the reader's loop ----------

  /** block.find over the three lines after line `i`. */
  lemma FindInThree(lines: seq<string>, i: nat, marker: string, j: nat)
    requires i < j <= i + 4 && j <= |lines| && forall x | i < x < j :: !Contains(lines[x], marker)
    requires j == |lines| || j == i + 4 || Contains(lines[j], marker)
    ensures FirstAfter(lines, i, marker) == if j == i + 4 then |lines| else j
  {}

  lemma {:induction false} FailureStays(openings: seq<Opening>, n: nat)
    requires n <= |openings| && Collect(openings[..n]).Failure?
    ensures Collect(openings) == Collect(openings[..n])
    decreases |openings|
  {
    var m := |openings| - 1;
    if n <= m {
      assert openings[..m][..n] == openings[..n];
      FailureStays(openings[..m], n);
    } else {
      assert openings[..n] == openings;
    }
  }

  lemma CollectNext(openings: seq<Opening>, n: nat)
    requires n < |openings|
    ensures var before := Collect(openings[..n]);
      Collect(openings[..n + 1]) ==
        if before.Failure? || openings[n].block.None? then before
        else if openings[n].image.None? then Failure(IncompleteBlock(openings[n].block.value))
        else Success(before.value[openings[n].block.value := openings[n].image.value])
  {
    assert openings[..n + 1][..n] == openings[..n];
  }

  // ---------- the writer's loops ----------

  lemma {:induction false} FirstInvalidIs(components: seq<string>, images: map<string, Image>, i: nat)
    requires i < |components| && (components[i] !in images || !ValidDigest(images[components[i]].digest))
    requires forall k | 0 <= k < i :: components[k] in images && ValidDigest(images[components[k]].digest)
    ensures !ValidImages(components, images) && FirstInvalid(components, images) == components[i]
    decreases i
  {
    assert components[i] in components;
    if i > 0 {
      forall k | 0 <= k < i - 1
        ensures components[1..][k] in images && ValidDigest(images[components[1..][k]].digest) {
        assert components[1..][k] == components[k + 1];
      }
      FirstInvalidIs(components[1..], images, i - 1);
    }
  }

  ghost predicate SeenIn(components: seq<string>, lines: seq<string>, n: nat, seen: set<string>)
    requires n <= |lines|
  {
    forall c :: c in seen <==> exists x :: 0 <= x < n && BlockOf(components, lines[x]) == Some(c)
  }

  lemma SeenNext(components: seq<string>, lines: seq<string>, n: nat, seen: set<string>)
    requires n < |lines| && SeenIn(components, lines, n, seen)
    ensures var b := BlockOf(components, lines[n]);
      SeenIn(components, lines, n + 1, if b.Some? then seen + {b.value} else seen)
  {}

  predicate LineIs(components: seq<string>, images: map<string, Image>, lines: seq<string>, x: nat, line: string)
    requires ValidImages(components, images) && x < |lines|
  {
    line == NewLine(components, images, ActiveAt(components, lines, x), lines[x])
  }

  ghost predicate RewrittenTo(
    components: seq<string>, images: map<string, Image>, lines: seq<string>, n: nat, output: seq<string>)
    requires ValidImages(components, images) && n <= |lines|
  {
    |output| == n && forall x | 0 <= x < n :: LineIs(components, images, lines, x, output[x])
  }

  lemma RewrittenNext(
    components: seq<string>, images: map<string, Image>, lines: seq<string>, n: nat, output: seq<string>, line: string)
    requires ValidImages(components, images) && n < |lines| && RewrittenTo(components, images, lines, n, output)
    requires LineIs(components, images, lines, n, line)
    ensures RewrittenTo(components, images, lines, n + 1, output + [line])
  {
    Appended(output, line);
  }

  lemma Appended(output: seq<string>, line: string)
    ensures |output + [line]| == |output| + 1 && (output + [line])[|output|] == line
    ensures forall x | 0 <= x < |output| :: (output + [line])[x] == output[x]
  {}

  /** The state of the scan before line `n`. */
  ghost predicate Scanned(
    components: seq<string>, images: map<string, Image>, lines: seq<string>, n: nat,
    output: seq<string>, active: Option<string>, seen: set<string>)
    requires ValidImages(components, images)
  {
    && n <= |lines| && |output| == n && active == ActiveAt(components, lines, n)
    && RewrittenTo(components, images, lines, n, output) && SeenIn(components, lines, n, seen)
  }

  lemma ScanStart(components: seq<string>, images: map<string, Image>, lines: seq<string>)
    requires ValidImages(components, images)
    ensures Scanned(components, images, lines, 0, [], None, {})
  {}

  lemma ScanNext(
    components: seq<string>, images: map<string, Image>, lines: seq<string>, n: nat,
    output: seq<string>, active: Option<string>, seen: set<string>)
    requires ValidImages(components, images)
    requires n < |lines| && Scanned(components, images, lines, n, output, active, seen)
    ensures active.Some? ==> active.value in components
    ensures var b := BlockOf(components, lines[n]);
      Scanned(components, images, lines, n + 1, output + [NewLine(components, images, active, lines[n])],
              NextActive(components, active, lines[n]), if b.Some? then seen + {b.value} else seen)
  {
    SeenNext(components, lines, n, seen);
    RewrittenNext(components, images, lines, n, output, NewLine(components, images, active, lines[n]));
    ActiveUnfolds(components, lines, n + 1);
  }

  lemma ScanEnd(
    components: seq<string>, images: map<string, Image>, lines: seq<string>,
    output: seq<string>, active: Option<string>, seen: set<string>)
    requires ValidImages(components, images) && Scanned(components, images, lines, |lines|, output, active, seen)
    ensures output == Rewritten(components, images, lines) && SeenIn(components, lines, |lines|, seen)
  {}

  class Files {
    var contents: map<string, string>

    /** The first of the three lines after line `i` that has the marker. */
    static method FindLine(lines: seq<string>, i: nat, marker: string) returns (j: nat)
      requires i < |lines|
      ensures j == FirstAfter(lines, i, marker)
    {
      j := i + 1;
      while j < i + 4 && j < |lines|
        invariant i < j <= i + 4 && j <= |lines|
        invariant forall x | i < x < j :: !Contains(lines[x], marker)
      {
        if Contains(lines[j], marker) { break; }
        j := j + 1;
      }
      FindInThree(lines, i, marker, j);
      if j == i + 4 { j := |lines|; }
    }

    method ReadImages(path: string) returns (r: Result<map<string, Image>, Error>)
      ensures r == ReadFile(COMPONENTS, contents, path)
    {
      if path !in contents { return Failure(NoSuchFile(path)); }
      var lines := Split(contents[path]);
      ghost var openings := Openings(COMPONENTS, lines);
      var images: map<string, Image> := map[];
      for index := 0 to |lines|
        invariant Collect(openings[..index]) == Success(images)
      {
        CollectNext(openings, index);
        var block := BlockOf(COMPONENTS, lines[index]);
        if block.Some? {
          var nameLine := FindLine(lines, index, NAME);
          var digestLine := FindLine(lines, index, DIGEST);
          if nameLine == |lines| || digestLine == |lines| {
            FailureStays(openings, index + 1);
            return Failure(IncompleteBlock(block.value));
          }
          images := images[block.value := Image(Value(lines[nameLine], NAME), Value(lines[digestLine], DIGEST))];
        }
      }
      assert openings[..|lines|] == openings;
      if exists c <- COMPONENTS :: c !in images { return Failure(MissingBlocks); }
      return Success(images);
    }

    static method CheckDigests(components: seq<string>, images: map<string, Image>) returns (invalid: Option<string>)
      ensures invalid == if ValidImages(components, images) then None else Some(FirstInvalid(components, images))
    {
      for i := 0 to |components|
        invariant forall k | 0 <= k < i :: components[k] in images && ValidDigest(images[components[k]].digest)
      {
        if components[i] !in images || !ValidDigest(images[components[i]].digest) {
          FirstInvalidIs(components, images, i);
          return Some(components[i]);
        }
      }
      return None;
    }

    /** writeImages of both scripts, over their components. */
    method WriteImages(components: seq<string>, path: string, images: map<string, Image>) returns (r: Result<(), Error>)
      modifies this
      ensures WrittenTo(components, path, images, old(contents), contents, r)
    {
      var invalid := CheckDigests(components, images);
      if invalid.Some? { return Failure(InvalidDigest(invalid.value)); }
      if path !in contents { return Failure(NoSuchFile(path)); }
      var lines := Split(contents[path]);
      var output, seen := RewriteLines(components, images, lines);
      if exists c <- components :: c !in seen { return Failure(MissingBlocks); }
      contents := contents[path := Print(output)];
      return Success(());
    }

    /** One line of the scan, with the block that is open before and after it. */
    static method RewriteLine(components: seq<string>, images: map<string, Image>, active: Option<string>, line: string)
      returns (updated: string, next: Option<string>)
      requires ValidImages(components, images) && (active.Some? ==> active.value in components)
      ensures updated == NewLine(components, images, active, line) && next == NextActive(components, active, line)
    {
      updated, next := line, active;
      var block := BlockOf(components, line);
      if block.Some? {
        next := block;
      } else if active.Some? && Contains(line, NAME) {
        updated := Indent(line) + "newName: " + images[active.value].name;
      } else if active.Some? && Contains(line, DIGEST) {
        updated, next := Indent(line) + "digest: " + images[active.value].digest, None;
      }
    }

    /** The line scan: `active` is the block that is open, `seen` the blocks met so far. */
    static method RewriteLines(components: seq<string>, images: map<string, Image>, lines: seq<string>)
      returns (output: seq<string>, seen: set<string>)
      requires ValidImages(components, images)
      ensures output == Rewritten(components, images, lines) && SeenIn(components, lines, |lines|, seen)
    {
      var active: Option<string> := None;
      output, seen := [], {};
      ScanStart(components, images, lines);
      for x := 0 to |lines|
        invariant Scanned(components, images, lines, x, output, active, seen)
      {
        ScanNext(components, images, lines, x, output, active, seen);
        var block := BlockOf(components, lines[x]);
        if block.Some? { seen := seen + {block.value}; }
        var updated, next := RewriteLine(components, images, active, lines[x]);
        output, active := output + [updated], next;
      }
      ScanEnd(components, images, lines, output, active, seen);
    }

    /** The loop of parseArgs, two values at a time. */
    static method Parse(values: seq<string>) returns (r: Result<map<string, string>, Error>)
      ensures r == ParseArgs(values, map[])
    {
      var args: map<string, string> := map[];
      var index := 0;
      while index < |values|
        invariant index <= |values|
        invariant ParseArgs(values, map[]) == ParseArgs(values[index..], args)
      {
        var key := values[index];
        if !StartsWith(key, "--") || index + 1 == |values| { return Failure(InvalidArgument(key)); }
        assert values[index..][2..] == values[index + 2..];
        args := args[key[2..] := values[index + 1]];
        index := index + 2;
      }
      return Success(args);
    }

    static method CheckArguments(args: map<string, string>, keys: seq<string>) returns (missing: Option<string>)
      ensures missing == FirstMissing(args, keys)
    {
      for i := 0 to |keys|
        invariant forall k | 0 <= k < i :: Given(args, keys[k])
      {
        if !Given(args, keys[i]) {
          FirstMissingAt(args, keys, i);
          return Some(keys[i]);
        }
      }
      return None;
    }

    /** main of scripts/gitops-images.mjs on parsed arguments. */
    method Promote(args: map<string, string>) returns (r: Result<(), Error>)
      modifies this
      ensures Promoted(args, old(contents), contents, r) && Answered(args, old(contents), contents, r)
      ensures r.Success? && Given(args, "copy-from") && Promotable(old(contents), args["copy-from"], args["file"]) ==>
        ReadFile(COMPONENTS, contents, args["file"]) == ReadFile(COMPONENTS, old(contents), args["copy-from"])
    {
      ghost var before := contents;
      if !Given(args, "file") {
        r := Failure(MissingArgument("file"));
      } else {
        var images := FindImages(args);
        if images.Failure? {
          r := Failure(images.error);
        } else {
          r := WriteImages(COMPONENTS, args["file"], images.value);
        }
      }
      PromotedIsAnswered(args, before, contents, r);
      if r.Success? && Given(args, "copy-from") && Promotable(before, args["copy-from"], args["file"]) {
        CopyFromPromotes(COMPONENTS, before[args["copy-from"]], before[args["file"]]);
      }
    }

    /** The images of the other file or of the registry. */
    method FindImages(args: map<string, string>) returns (r: Result<map<string, Image>, Error>)
      ensures r == Wanted(args, contents)
    {
      if Given(args, "copy-from") {
        if exists key <- EXPLICIT :: Given(args, key) { return Failure(ExplicitImages); }
        r := ReadImages(args["copy-from"]);
      } else {
        var missing := CheckArguments(args, EXPLICIT);
        if missing.Some? { return Failure(MissingArgument(missing.value)); }
        assert EXPLICIT[0] == "registry" && Given(args, EXPLICIT[0]);
        return Success(RegistryImages(COMPONENTS, args["registry"], GivenDigests(COMPONENTS, args)));
      }
    }

    /** The whole of scripts/gitops-images.mjs, from the command line. */
    method Run(values: seq<string>) returns (r: Result<(), Error>)
      modifies this
      ensures var args := ParseArgs(values, map[]);
        if args.Failure? then r == Failure(args.error) && contents == old(contents)
        else Promoted(args.value, old(contents), contents, r) && Answered(args.value, old(contents), contents, r)
    {
      var args := Parse(values);
      if args.Failure? { return Failure(args.error); }
      r := Promote(args.value);
    }

    /** writeDataImages of scripts/gitops-data-images.mjs. */
    method WriteDataImages(path: string, registry: string, digests: map<string, string>) returns (r: Result<(), Error>)
      modifies this
      ensures WrittenTo(DATA_COMPONENTS, path,
                        RegistryImages(DATA_COMPONENTS, registry, digests), old(contents), contents, r)
      ensures r.Success? ==> RegistryWritten(["mysql", "redis"], path, registry, digests, old(contents), contents)
      ensures r.Failure? ==> contents == old(contents)
    {
      ghost var before := contents;
      r := WriteImages(DATA_COMPONENTS, path, RegistryImages(DATA_COMPONENTS, registry, digests));
      if r.Success? { RegistryIsWritten(DATA_COMPONENTS, path, registry, digests, before, contents); }
    }

    /** The whole of scripts/gitops-data-images.mjs, from the command line. */
    method RunData(values: seq<string>) returns (r: Result<(), Error>)
      modifies this
      ensures var args := ParseArgs(values, map[]);
        if args.Failure? then r == Failure(args.error) && contents == old(contents)
        else
          && DataPromoted(args.value, old(contents), contents, r)
          && DataAnswered(args.value, old(contents), contents, r)
    {
      ghost var before := contents;
      var args := Parse(values);
      if args.Failure? { return Failure(args.error); }
      var missing := CheckArguments(args.value, DATA_KEYS);
      if missing.Some? {
        r := Failure(MissingArgument(missing.value));
      } else {
        assert Given(args.value, DATA_KEYS[0]) && Given(args.value, DATA_KEYS[1]);
        r := WriteDataImages(args.value["file"], args.value["registry"], GivenDigests(DATA_COMPONENTS, args.value));
      }
      DataPromotedIsAnswered(args.value, before, contents, r);
    }
  }

  const DATA_KEYS := ["file", "registry", "mysql-digest", "redis-digest"]

  /** The file is rewritten, or there is an error and no change. */
  predicate WrittenTo(
    components: seq<string>, path: string, images: map<string, Image>, before: map<string, string>,
    after: map<string, string>, r: Result<(), Error>)
  {
    var text := NewText(components, before, path, images);
    if text.Success? then r == Success(()) && after == before[path := text.value]
    else r == Failure(text.error) && after == before
  }

  /** What the parsed arguments lead to: the errors in the source's order, or the file written. */
  predicate Promoted(
    args: map<string, string>, before: map<string, string>, after: map<string, string>, r: Result<(), Error>)
  {
    var images := Wanted(args, before);
    if !Given(args, "file") then r == Failure(MissingArgument("file")) && after == before
    else if images.Failure? then r == Failure(images.error) && after == before
    else
      var text := NewText(COMPONENTS, before, args["file"], images.value);
      if text.Success? then r == Success(()) && after == before[args["file"] := text.value]
      else r == Failure(text.error) && after == before
  }

  predicate DataPromoted(
    args: map<string, string>, before: map<string, string>, after: map<string, string>, r: Result<(), Error>)
  {
    if FirstMissing(args, DATA_KEYS).Some? then
      r == Failure(MissingArgument(FirstMissing(args, DATA_KEYS).value)) && after == before
    else
      && Given(args, "file") && Given(args, "registry")
      && WrittenTo(DATA_COMPONENTS, args["file"],
                   RegistryImages(DATA_COMPONENTS, args["registry"], GivenDigests(DATA_COMPONENTS, args)),
                   before, after, r)
  }

  /** The blocks of the target are in order, and no name in the source holds the text "digest:". */
  ghost predicate Promotable(files: map<string, string>, source: string, target: string) {
    var images := ReadFile(COMPONENTS, files, source);
    && images.Success? && target in files && Ready(COMPONENTS, Split(files[target]))
    && forall c <- COMPONENTS :: c in images.value && !Contains(images.value[c].name, DIGEST)
  }

  // ---------- registries ----------

  lemma {:induction false} NoSlashIs(registry: string, slashes: string)
    requires (registry == "" || registry[|registry| - 1] != '/') && forall i | 0 <= i < |slashes| :: slashes[i] == '/'
    ensures NoSlash(registry + slashes) == registry
    decreases |slashes|
  {
    if slashes == "" {
      assert registry + slashes == registry;
    } else {
      assert (registry + slashes)[..|registry + slashes| - 1] == registry + slashes[..|slashes| - 1];
      NoSlashIs(registry, slashes[..|slashes| - 1]);
    }
  }
}

/** Promotion by copying: production gets the images that staging has. */
module Copying {
  import opened Wrappers
  import opened Text
  import opened Search
  import opened Lines
  import opened ImageRewriter
  import opened RewrittenLines
  import opened Promotion
  import opened RewriteTwice

  // ---------- what is read is almost clean ----------

  ghost predicate Inside(t: string, s: string) {
    exists i: nat, j: nat :: Slice(t, s, i, j)
  }

  ghost predicate Slice(t: string, s: string, i: nat, j: nat) { i <= j <= |s| && t == s[i..j] }

  lemma {:induction false} TrimLeftInside(s: string)
    ensures exists i: nat :: i <= |s| && TrimLeft(s, JsSpace) == s[i..]
    decreases |s|
  {
    if s != "" && JsSpace(s[0]) {
      TrimLeftInside(s[1..]);
      var i: nat :| i <= |s[1..]| && TrimLeft(s[1..], JsSpace) == s[1..][i..];
      assert s[1..][i..] == s[i + 1..];
    } else {
      assert s == s[0..];
    }
  }

  lemma {:induction false} TrimRightInside(s: string)
    ensures exists j: nat :: j <= |s| && TrimRight(s, JsSpace) == s[..j]
    decreases |s|
  {
    if s != "" && JsSpace(s[|s| - 1]) {
      TrimRightInside(s[..|s| - 1]);
      var j: nat :| j <= |s| - 1 && TrimRight(s[..|s| - 1], JsSpace) == s[..|s| - 1][..j];
      assert s[..|s| - 1][..j] == s[..j];
    } else {
      assert s == s[..|s|];
    }
  }

  lemma TrimInside(s: string)
    ensures Inside(Trim(s, JsSpace), s)
  {
    TrimLeftInside(s);
    var t := TrimLeft(s, JsSpace);
    var i: nat :| i <= |s| && t == s[i..];
    TrimRightInside(t);
    var j: nat :| j <= |t| && TrimRight(t, JsSpace) == t[..j];
    assert t[..j] == s[i..i + j];
    assert Slice(Trim(s, JsSpace), s, i, i + j);
  }

  lemma TakeShift(s: string, a: nat, b: nat, i: nat, n: nat)
    requires a <= b <= |s| && i + n <= b - a
    ensures s[a..b][i..][..n] == s[a + i..][..n]
  {
    var x, y := s[a..b][i..][..n], s[a + i..][..n];
    assert |x| == n && |y| == n;
    assert forall k | 0 <= k < n :: x[k] == s[a + i + k] && y[k] == s[a + i + k];
  }

  lemma InsideLacks(t: string, s: string, marker: string)
    requires Inside(t, s) && !Contains(s, marker)
    ensures !Contains(t, marker)
  {
    var a: nat, b: nat :| Slice(t, s, a, b);
    forall i | 0 <= i <= |t| ensures !StartsWith(t[i..], marker) {
      if |marker| <= |t| - i { TakeShift(s, a, b, i, |marker|); }
    }
  }

  lemma {:induction false} TrimEnds(s: string)
    ensures var t := TrimRight(s, JsSpace); t != "" ==> !JsSpace(t[|t| - 1])
    decreases |s|
  {
    if s != "" && JsSpace(s[|s| - 1]) { TrimEnds(s[..|s| - 1]); }
  }

  lemma {:induction false} TrimStarts(s: string)
    ensures var t := TrimLeft(s, JsSpace); t != "" ==> !JsSpace(t[0])
    decreases |s|
  {
    if s != "" && JsSpace(s[0]) { TrimStarts(s[1..]); }
  }

  lemma TrimmedHead(l: string)
    requires l != "" ==> !JsSpace(l[0])
    ensures var t := TrimRight(l, JsSpace); t != "" ==> !JsSpace(t[0]) && !JsSpace(t[|t| - 1])
  {
    TrimEnds(l);
    if l != "" { TrimRightKeepsHead(l); }
  }

  lemma TrimTwice(s: string)
    ensures Trim(Trim(s, JsSpace), JsSpace) == Trim(s, JsSpace)
  {
    TrimStarts(s);
    TrimmedHead(TrimLeft(s, JsSpace));
    var t := Trim(s, JsSpace);
    if t != "" { TrimFixed(t); }
  }

  lemma TakeLacks(s: string, n: nat, marker: string)
    requires Contains(s, marker) && n == Find(s, marker) && marker != ""
    ensures !Contains(s[..n], marker)
  {
    assert s[0..n] == s[..n];
    forall i | 0 <= i <= n ensures !StartsWith(s[..n][i..], marker) {
      if |marker| <= n - i { TakeShift(s, 0, n, i, |marker|); }
    }
  }

  lemma SliceOfTail(s: string, f: nat, n: nat)
    requires f <= |s| && n <= |s| - f
    ensures Inside(s[f..][..n], s)
  {
    assert s[f..][..n] == s[f..f + n];
    assert Slice(s[f..][..n], s, f, f + n);
  }

  lemma UpToLacks(s: string, f: nat, marker: string)
    requires f <= |s| && marker != ""
    ensures Inside(UpTo(s[f..], marker), s) && !Contains(UpTo(s[f..], marker), marker)
  {
    var rest := s[f..];
    if Contains(rest, marker) {
      var n := Find(rest, marker);
      TakeLacks(rest, n, marker);
      SliceOfTail(s, f, n);
    } else {
      SliceOfTail(s, f, |rest|);
      assert rest[..|rest|] == rest;
    }
  }

  lemma FoundInside(s: string, marker: string)
    requires Contains(s, marker)
    ensures Find(s, marker) + |marker| <= |s|
  {}

  lemma TrimmedInside(b: string, line: string)
    requires Inside(b, line) && !Contains(b, NAME) && '\n' !in line
    ensures TidyName(Trim(b, JsSpace))
  {
    TrimTwice(b);
    TrimInside(b);
    InsideLacks(Trim(b, JsSpace), b, NAME);
    var i: nat, j: nat :| Slice(b, line, i, j);
    var x: nat, y: nat :| Slice(Trim(b, JsSpace), b, x, y);
  }

  /** A name that was read is trimmed, has no marker of its own and no line feed. */
  lemma ReadNameIsTidy(line: string)
    requires Contains(line, NAME) && '\n' !in line
    ensures TidyName(Value(line, NAME))
  {
    FoundInside(line, NAME);
    UpToLacks(line, Find(line, NAME) + |NAME|, NAME);
    TrimmedInside(Between(line, NAME), line);
  }

  predicate TidyName(name: string) { Trim(name, JsSpace) == name && !Contains(name, NAME) && '\n' !in name }

  predicate Tidy(components: seq<string>, images: map<string, Image>) {
    forall c <- images :: c in components && TidyName(images[c].name)
  }

  lemma ImageIsTidy(lines: seq<string>, i: nat)
    requires i < |lines| && Unbroken(lines) && ImageAt(lines, i).Some?
    ensures TidyName(ImageAt(lines, i).value.name)
  {
    ReadNameIsTidy(lines[FirstAfter(lines, i, NAME)]);
  }

  predicate TidyOpening(components: seq<string>, o: Opening) {
    && (o.block.Some? ==> o.block.value in components)
    && (o.image.Some? ==> TidyName(o.image.value.name))
  }

  lemma {:induction false} ReadNamesAreTidy(components: seq<string>, openings: seq<Opening>)
    requires Collect(openings).Success? && forall o <- openings :: TidyOpening(components, o)
    ensures Tidy(components, Collect(openings).value)
    decreases |openings|
  {
    if openings != [] {
      var n := |openings| - 1;
      ReadNamesAreTidy(components, openings[..n]);
      assert TidyOpening(components, openings[n]);
    }
  }

  lemma TidyIsClean(components: seq<string>, images: map<string, Image>)
    requires Tidy(components, images) && ValidImages(components, images)
    requires forall c <- components :: !Contains(images[c].name, DIGEST)
    ensures CleanImages(components, images) && Chosen(components, images) == images
  {}

  /** Promotion by --copy-from: if the target's blocks are in order and the writer accepts the images, the target
      then reads exactly as the source does. The one thing to ask of the source is that none of its names holds
      the text "digest:". */
  lemma CopyFromPromotes(components: seq<string>, source: string, target: string)
    requires Read(components, source).Success?
    requires Write(components, target, Read(components, source).value).Success?
    requires Ready(components, Split(target))
    requires forall c <- components :: !Contains(Read(components, source).value[c].name, DIGEST)
    ensures Read(components, Write(components, target, Read(components, source).value).value)
         == Read(components, source)
  {
    var lines, images := Split(source), Read(components, source).value;
    SplitUnbrokenFrom(source, "");
    forall x | 0 <= x < |lines| ensures TidyOpening(components, Openings(components, lines)[x]) {
      if ImageAt(lines, x).Some? { ImageIsTidy(lines, x); }
    }
    ReadNamesAreTidy(components, Openings(components, lines));
    TidyIsClean(components, images);
    PromotionPreservesImages(components, target, images);
  }
}

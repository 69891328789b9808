/** Files as lines: split(/\r?\n/), join("\n") and the removal of trailing newlines. */
module Lines {

  /** The line without the carriage return that belongs to its line break. */
  function DropCR(line: string): string {
    if line != "" && line[|line| - 1] == '\r' then line[..|line| - 1] else line
  }

  /** text.split(/\r?\n/). */
  function Split(text: string): (lines: seq<string>)
    ensures lines != []
  {
    SplitFrom(text, "")
  }

  /** `line` is the part of the current line that has been read. */
  function SplitFrom(text: string, line: string): (lines: seq<string>)
    ensures lines != []
    decreases |text|
  {
    if text == "" then [line]
    else if text[0] == '\n' then [DropCR(line)] + SplitFrom(text[1..], "")
    else SplitFrom(text[1..], line + [text[0]])
  }

  /** lines.join("\n"). */
  function Join(lines: seq<string>): string
    requires lines != []
  {
    if |lines| == 1 then lines[0] else lines[0] + "\n" + Join(lines[1..])
  }

  /** text.replace(/\n+$/, ""). */
  function Strip(text: string): string {
    if text != "" && text[|text| - 1] == '\n' then Strip(text[..|text| - 1]) else text
  }

  /** What both rewriters write back. */
  function Print(lines: seq<string>): string
    requires lines != []
  {
    Strip(Join(lines)) + "\n"
  }

  /** The lines without the empty ones at the end, but with the first one. */
  function Trimmed(lines: seq<string>): (kept: seq<string>)
    requires lines != []
    ensures kept != [] && kept <= lines
    ensures forall i | |kept| <= i < |lines| :: lines[i] == ""
  {
    if |lines| == 1 then lines
    else
      var kept := Trimmed(lines[1..]);
      if kept == [""] then lines[..1] else [lines[0]] + kept
  }

  function DropCRs(lines: seq<string>): (r: seq<string>)
    ensures |r| == |lines| && forall i | 0 <= i < |lines| :: r[i] == DropCR(lines[i])
  {
    if lines == [] then [] else [DropCR(lines[0])] + DropCRs(lines[1..])
  }

  ghost predicate Unbroken(lines: seq<string>) { forall i | 0 <= i < |lines| :: '\n' !in lines[i] }

  lemma {:induction false} SplitLine(line: string, read: string, rest: string)
    requires '\n' !in line
    ensures SplitFrom(line + "\n" + rest, read) == [DropCR(read + line)] + SplitFrom(rest, "")
    decreases |line|
  {
    var text := line + "\n" + rest;
    if line == "" {
      assert text[1..] == rest && read + line == read;
    } else {
      assert text[1..] == line[1..] + "\n" + rest;
      assert read + [line[0]] + line[1..] == read + line;
      SplitLine(line[1..], read + [line[0]], rest);
    }
  }

  /** Reading printed lines back: one carriage return per line is lost, and an empty line is gained. */
  lemma {:induction false} SplitJoin(lines: seq<string>)
    requires lines != [] && Unbroken(lines)
    ensures Split(Join(lines) + "\n") == DropCRs(lines) + [""]
    decreases |lines|
  {
    if |lines| == 1 {
      assert Join(lines) + "\n" == lines[0] + "\n" + "";
      SplitLine(lines[0], "", "");
      assert "" + lines[0] == lines[0];
      assert DropCRs(lines) == [DropCR(lines[0])];
    } else {
      assert Join(lines) + "\n" == lines[0] + "\n" + (Join(lines[1..]) + "\n");
      SplitLine(lines[0], "", Join(lines[1..]) + "\n");
      assert "" + lines[0] == lines[0];
      assert Unbroken(lines[1..]);
      SplitJoin(lines[1..]);
      assert DropCRs(lines) == [DropCR(lines[0])] + DropCRs(lines[1..]);
    }
  }

  lemma {:induction false} StripTail(x: string, y: string)
    requires '\n' !in x
    ensures Strip(x + "\n" + y) == if Strip(y) == "" then x else x + "\n" + Strip(y)
    decreases |y|
  {
    var text := x + "\n" + y;
    if y == "" {
      assert text[..|text| - 1] == x;
    } else if y[|y| - 1] == '\n' {
      assert text[..|text| - 1] == x + "\n" + y[..|y| - 1];
      StripTail(x, y[..|y| - 1]);
    }
  }

  lemma {:induction false} StripJoin(lines: seq<string>)
    requires lines != [] && Unbroken(lines)
    ensures Strip(Join(lines)) == Join(Trimmed(lines))
    ensures Join(Trimmed(lines)) == "" <==> Trimmed(lines) == [""]
    decreases |lines|
  {
    if |lines| > 1 {
      assert Unbroken(lines[1..]);
      StripJoin(lines[1..]);
      StripTail(lines[0], Join(lines[1..]));
      var kept := Trimmed(lines[1..]);
      if kept != [""] { assert ([lines[0]] + kept)[1..] == kept; }
    }
  }

  lemma {:induction false} SplitUnbrokenFrom(text: string, line: string)
    requires '\n' !in line
    ensures Unbroken(SplitFrom(text, line))
    decreases |text|
  {
    if text != "" {
      if text[0] == '\n' { SplitUnbrokenFrom(text[1..], ""); } else { SplitUnbrokenFrom(text[1..], line + [text[0]]); }
    }
  }

  /** Print, then split: the kept lines, less one carriage return each, and one empty line. */
  lemma SplitPrint(lines: seq<string>)
    requires lines != [] && Unbroken(lines)
    ensures Split(Print(lines)) == DropCRs(Trimmed(lines)) + [""]
  {
    StripJoin(lines);
    SplitJoin(Trimmed(lines));
  }
}

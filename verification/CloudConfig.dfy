/**
 * The `write_files` section of a generated cloud-config: how it is printed into the document, and how a
 * reader of indented blocks gets it back. Block scalars follow sections 8.1.1.1, 8.1.1.2 and 8.1.2 of
 * YAML 1.2.2.
 */
module CloudConfig {
  import opened Wrappers
  import opened Text

  /** One file to write; an absent property is the empty string, as the printer tests it. */
  datatype WriteFile = WriteFile(
    path: string, encoding: string, owner: string, permissions: string, defer: string, content: string)

  // ----- the printer -------------------------------------------------------------------------

  const PATH := "  - path: "
  const ENCODING := "    encoding: "
  const OWNER := "    owner: "
  const PERMISSIONS := "    permissions: '"
  const DEFER := "    defer: "
  const CONTENT := "    content: |"
  const INDENT := "      "

  function Field(prefix: string, value: string, suffix: string): seq<string> {
    if value == "" then [] else [prefix + value + suffix]
  }

  function Indented(lines: seq<string>): (r: seq<string>)
    ensures |r| == |lines|
    ensures forall k :: 0 <= k < |lines| ==> r[k] == INDENT + lines[k]
  {
    if lines == [] then [] else [INDENT + lines[0]] + Indented(lines[1..])
  }

  function ContentLines(content: string): seq<string> {
    if content == "" then [] else [CONTENT] + Indented(Split(content, '\n'))
  }

  function EntryLines(f: WriteFile): seq<string> {
    [PATH + f.path] + Field(ENCODING, f.encoding, "") + Field(OWNER, f.owner, "")
    + Field(PERMISSIONS, f.permissions, "'") + Field(DEFER, f.defer, "") + ContentLines(f.content)
  }

  function FileLines(files: seq<WriteFile>): seq<string> {
    if files == [] then [] else FileLines(files[..|files| - 1]) + EntryLines(files[|files| - 1])
  }

  /** The document: the lines of the sections before, `write_files`, the lines of the sections after. */
  function Document(before: seq<string>, files: seq<WriteFile>, after: seq<string>): string {
    Join(before + ["write_files:"] + FileLines(files) + after, '\n')
  }

  method PushField(yaml: seq<string>, prefix: string, value: string, suffix: string) returns (r: seq<string>)
    ensures r == yaml + Field(prefix, value, suffix)
  {
    r := yaml;
    if value != "" { r := r + [prefix + value + suffix]; }
  }

  method PushIndented(yaml: seq<string>, lines: seq<string>) returns (r: seq<string>)
    ensures r == yaml + Indented(lines)
  {
    r := yaml;
    ghost var all := Indented(lines);
    for k := 0 to |lines|
      invariant r == yaml + all[..k]
    {
      r := r + [INDENT + lines[k]];
      assert all[..k + 1] == all[..k] + [all[k]];
    }
    assert all[..|lines|] == all;
  }

  method PushContent(yaml: seq<string>, content: string) returns (r: seq<string>)
    ensures r == yaml + ContentLines(content)
  {
    r := yaml;
    if content != "" {
      r := PushIndented(r + [CONTENT], Split(content, '\n'));
    }
  }

  /** The pushes of one file. */
  method PushFile(yaml: seq<string>, f: WriteFile) returns (r: seq<string>)
    ensures r == yaml + EntryLines(f)
  {
    ghost var x := [PATH + f.path];
    r := yaml + [PATH + f.path];
    r := PushField(r, ENCODING, f.encoding, "");
    Reassociate(yaml, x, Field(ENCODING, f.encoding, ""));
    x := x + Field(ENCODING, f.encoding, "");
    r := PushField(r, OWNER, f.owner, "");
    Reassociate(yaml, x, Field(OWNER, f.owner, ""));
    x := x + Field(OWNER, f.owner, "");
    r := PushField(r, PERMISSIONS, f.permissions, "'");
    Reassociate(yaml, x, Field(PERMISSIONS, f.permissions, "'"));
    x := x + Field(PERMISSIONS, f.permissions, "'");
    r := PushField(r, DEFER, f.defer, "");
    Reassociate(yaml, x, Field(DEFER, f.defer, ""));
    x := x + Field(DEFER, f.defer, "");
    r := PushContent(r, f.content);
    Reassociate(yaml, x, ContentLines(f.content));
  }

  lemma {:induction false} Reassociate(a: seq<string>, b: seq<string>, c: seq<string>)
    ensures (a + b) + c == a + (b + c)
  {
  }

  /** The section in its place between the lines the other sections push, and the final join. */
  method GenerateCloudConfig(before: seq<string>, files: seq<WriteFile>, after: seq<string>) returns (text: string)
    ensures text == Document(before, files, after)
  {
    var yaml := before + ["write_files:"];
    ghost var head := yaml;
    for i := 0 to |files|
      invariant yaml == head + FileLines(files[..i])
    {
      assert files[..i + 1][..i] == files[..i];
      yaml := PushFile(yaml, files[i]);
      Reassociate(head, FileLines(files[..i]), EntryLines(files[i]));
    }
    assert files[..|files|] == files;
    text := Join(yaml + after, '\n');
  }

  // ----- the reader --------------------------------------------------------------------------

  function LeadingSpaces(line: string): nat {
    if line == "" || line[0] != ' ' then 0 else 1 + LeadingSpaces(line[1..])
  }

  /** Nothing but spaces. */
  predicate Blank(line: string) {
    LeadingSpaces(line) == |line|
  }

  /** The lines of a block whose parent is indented by four: blank ones and deeper ones. */
  function BlockLength(lines: seq<string>): nat {
    if lines != [] && (Blank(lines[0]) || LeadingSpaces(lines[0]) > 4) then 1 + BlockLength(lines[1..]) else 0
  }

  lemma {:induction false} BlockLengthBound(lines: seq<string>)
    ensures BlockLength(lines) <= |lines|
  {
    if lines != [] { BlockLengthBound(lines[1..]); }
  }

  /** The index of the first line that is not blank. */
  function FirstText(block: seq<string>): (k: nat)
    ensures k <= |block|
    ensures forall i :: 0 <= i < k ==> Blank(block[i])
    ensures k < |block| ==> !Blank(block[k])
  {
    if block == [] || !Blank(block[0]) then 0 else 1 + FirstText(block[1..])
  }

  /** A line without the indentation of its block; a blank line shorter than it is empty. */
  function Stripped(line: string, indent: nat): string {
    if |line| <= indent then "" else line[indent..]
  }

  function StrippedAll(block: seq<string>, indent: nat): (r: seq<string>)
    ensures |r| == |block|
    ensures forall k :: 0 <= k < |block| ==> r[k] == Stripped(block[k], indent)
  {
    if block == [] then [] else [Stripped(block[0], indent)] + StrippedAll(block[1..], indent)
  }

  /** Clip chomping: trailing empty lines go, and one final line break stays if there is a line. */
  function Clip(lines: seq<string>): string {
    if lines == [] then ""
    else if lines[|lines| - 1] == "" then Clip(lines[..|lines| - 1])
    else Join(lines, '\n') + "\n"
  }

  /** A blank line before the first text line that is longer than the indentation. */
  predicate LongBefore(block: seq<string>, k: nat, indent: nat) {
    exists i :: 0 <= i < k && i < |block| && |block[i]| > indent
  }

  /** A text line indented less than the first one. */
  predicate ShallowAfter(block: seq<string>, k: nat, indent: nat) {
    exists i :: k <= i < |block| && !Blank(block[i]) && LeadingSpaces(block[i]) < indent
  }

  /**
   * A literal block with a detected indentation: that of its first text line. A leading blank line that
   * is longer, or a later text line that is indented less, is an error.
   */
  function ReadBlock(block: seq<string>): Option<string> {
    var k := FirstText(block);
    if k == |block| then Some("")
    else
      var indent := LeadingSpaces(block[k]);
      if LongBefore(block, k, indent) || ShallowAfter(block, k, indent) then None
      else Some(Clip(StrippedAll(block, indent)))
  }

  function ReadField(lines: seq<string>, prefix: string, suffix: string): (string, seq<string>) {
    if lines != [] && prefix <= lines[0] && |lines[0]| >= |prefix| + |suffix| then
      (lines[0][|prefix|..|lines[0]| - |suffix|], lines[1..])
    else ("", lines)
  }

  function ReadContent(lines: seq<string>): (Option<string>, seq<string>) {
    if lines != [] && lines[0] == CONTENT then
      BlockLengthBound(lines[1..]);
      var n := BlockLength(lines[1..]);
      (ReadBlock(lines[1..][..n]), lines[1..][n..])
    else (Some(""), lines)
  }

  /** One list item; `None` when its block is malformed. */
  function ReadEntry(lines: seq<string>): (Option<WriteFile>, seq<string>)
    requires lines != [] && PATH <= lines[0]
  {
    var path := lines[0][|PATH|..];
    var (encoding, l1) := ReadField(lines[1..], ENCODING, "");
    var (owner, l2) := ReadField(l1, OWNER, "");
    var (permissions, l3) := ReadField(l2, PERMISSIONS, "'");
    var (defer, l4) := ReadField(l3, DEFER, "");
    var (content, l5) := ReadContent(l4);
    (if content.Some? then Some(WriteFile(path, encoding, owner, permissions, defer, content.value)) else None, l5)
  }

  /** The items of the list; `fuel` bounds the walk over the lines. */
  function ReadEntries(lines: seq<string>, fuel: nat): Option<seq<WriteFile>>
    decreases fuel
  {
    if fuel == 0 || lines == [] || !(PATH <= lines[0]) then Some([])
    else
      var (f, rest) := ReadEntry(lines);
      Both(f, ReadEntries(rest, fuel - 1))
  }

  function Both(f: Option<WriteFile>, others: Option<seq<WriteFile>>): Option<seq<WriteFile>> {
    if f.Some? && others.Some? then Some([f.value] + others.value) else None
  }

  function IndexOfLine(lines: seq<string>, line: string): (k: nat)
    ensures k <= |lines|
  {
    if lines == [] || lines[0] == line then 0 else 1 + IndexOfLine(lines[1..], line)
  }

  function ReadDocument(text: string): Option<seq<WriteFile>> {
    var lines := Split(text, '\n');
    var k := IndexOfLine(lines, "write_files:");
    if k == |lines| then Some([]) else ReadEntries(lines[k + 1..], |lines|)
  }

  // ----- block scalars -----------------------------------------------------------------------

  /**
   * The contents a detected indentation is right for: only line breaks, or a first text line that does
   * not start with a space, with nothing but empty lines before it.
   */
  ghost predicate Plain(content: string) {
    var lines := Split(content, '\n');
    var k := FirstText(lines);
    (forall i :: 0 <= i < k ==> lines[i] == "") && (k < |lines| ==> LeadingSpaces(lines[k]) == 0)
  }

  lemma {:induction false} OneMoreSpace(line: string)
    ensures LeadingSpaces(" " + line) == 1 + LeadingSpaces(line)
  {
    assert (" " + line)[1..] == line;
  }

  lemma {:induction false} IndentedLine(line: string)
    ensures LeadingSpaces(INDENT + line) == 6 + LeadingSpaces(line)
    ensures Blank(INDENT + line) <==> Blank(line)
  {
    var s1 := " " + line;
    var s2 := " " + s1;
    var s3 := " " + s2;
    var s4 := " " + s3;
    var s5 := " " + s4;
    OneMoreSpace(line);
    OneMoreSpace(s1);
    OneMoreSpace(s2);
    OneMoreSpace(s3);
    OneMoreSpace(s4);
    OneMoreSpace(s5);
    assert INDENT + line == " " + s5;
  }

  lemma {:induction false} IndentedFirstText(lines: seq<string>)
    ensures FirstText(Indented(lines)) == FirstText(lines)
  {
    if lines != [] {
      IndentedLine(lines[0]);
      IndentedFirstText(lines[1..]);
      assert Indented(lines)[1..] == Indented(lines[1..]);
    }
  }

  lemma {:induction false} StrippedIndented(lines: seq<string>)
    ensures StrippedAll(Indented(lines), 6) == lines
  {
    forall k | 0 <= k < |lines| ensures StrippedAll(Indented(lines), 6)[k] == lines[k] {
      assert (INDENT + lines[k])[6..] == lines[k];
    }
  }

  lemma {:induction false} ClipOfEmptyLines(lines: seq<string>)
    requires forall i :: 0 <= i < |lines| ==> lines[i] == ""
    ensures Clip(lines) == ""
  {
    if lines != [] { ClipOfEmptyLines(lines[..|lines| - 1]); }
  }

  /** A clipped text with a line that is not empty names all its lines up to the last such one. */
  lemma {:induction false} ClipKeepsLine(lines: seq<string>, k: nat)
    requires k < |lines| && lines[k] != ""
    requires forall i :: 0 <= i < |lines| ==> '\n' !in lines[i]
    ensures exists n :: k < n <= |lines| && Clip(lines) == Join(lines[..n], '\n') + "\n"
  {
    var m := |lines| - 1;
    if lines[m] == "" {
      ClipKeepsLine(lines[..m], k);
      var n :| k < n <= m && Clip(lines[..m]) == Join(lines[..m][..n], '\n') + "\n";
      assert lines[..m][..n] == lines[..n];
    } else {
      assert lines[..|lines|] == lines;
    }
  }

  /** Two clipped texts that are equal agree on a line that is empty in neither. */
  lemma {:induction false} SameClipSameLine(a: seq<string>, b: seq<string>, k: nat)
    requires k < |a| && k < |b| && a[k] != "" && b[k] != "" && Clip(a) == Clip(b)
    requires forall i :: 0 <= i < |a| ==> '\n' !in a[i]
    requires forall i :: 0 <= i < |b| ==> '\n' !in b[i]
    ensures a[k] == b[k]
  {
    ClipKeepsLine(a, k);
    ClipKeepsLine(b, k);
    var n :| k < n <= |a| && Clip(a) == Join(a[..n], '\n') + "\n";
    var m :| k < m <= |b| && Clip(b) == Join(b[..m], '\n') + "\n";
    var x, y := Join(a[..n], '\n'), Join(b[..m], '\n');
    assert x == (x + "\n")[..|x + "\n"| - 1] && y == (y + "\n")[..|y + "\n"| - 1];
    JoinInjective(a[..n], b[..m], '\n');
    assert a[..n][k] == b[..m][k];
  }

  lemma {:induction false} ClipNonEmpty(lines: seq<string>, k: nat)
    requires k < |lines| && lines[k] != ""
    ensures Clip(lines) != ""
  {
    if lines[|lines| - 1] == "" { ClipNonEmpty(lines[..|lines| - 1], k); }
  }

  lemma {:induction false} TextLineNotEmpty(line: string)
    requires !Blank(line)
    ensures line != "" && Stripped(INDENT + line, 6 + LeadingSpaces(line)) != ""
    ensures LeadingSpaces(line) <= |line|
  {
    SpacesBound(line);
  }

  lemma {:induction false} SpacesBound(line: string)
    ensures LeadingSpaces(line) <= |line|
  {
    if line != "" && line[0] == ' ' { SpacesBound(line[1..]); }
  }

  /** What the reader makes of a printed block, in terms of its content lines. */
  lemma {:induction false} PrintedBlock(lines: seq<string>)
    ensures var k := FirstText(lines);
      && FirstText(Indented(lines)) == k
      && (k == |lines| ==> ReadBlock(Indented(lines)) == Some(""))
      && (k < |lines| ==>
            var indent := 6 + LeadingSpaces(lines[k]);
            && LeadingSpaces(Indented(lines)[k]) == indent
            && ReadBlock(Indented(lines))
               == if LongBefore(Indented(lines), k, indent) || ShallowAfter(Indented(lines), k, indent) then None
                  else Some(Clip(StrippedAll(Indented(lines), indent))))
  {
    IndentedFirstText(lines);
    var k := FirstText(lines);
    if k < |lines| { IndentedLine(lines[k]); }
  }

  lemma {:induction false} BlankContentReads(lines: seq<string>)
    requires FirstText(lines) == |lines|
    ensures ReadBlock(Indented(lines)) == Some(Clip(lines)) <==> forall i :: 0 <= i < |lines| ==> lines[i] == ""
  {
    PrintedBlock(lines);
    if forall i :: 0 <= i < |lines| ==> lines[i] == "" {
      ClipOfEmptyLines(lines);
    } else {
      var i :| 0 <= i < |lines| && lines[i] != "";
      ClipNonEmpty(lines, i);
    }
  }

  lemma {:induction false} UnspacedContentReads(lines: seq<string>, k: nat)
    requires k == FirstText(lines) && k < |lines| && LeadingSpaces(lines[k]) == 0
    ensures ReadBlock(Indented(lines)) == Some(Clip(lines)) <==> forall i :: 0 <= i < k ==> lines[i] == ""
  {
    PrintedBlock(lines);
    StrippedIndented(lines);
    NothingShallow(lines, k);
    LongBeforeExactly(lines, k);
  }

  lemma {:induction false} NothingShallow(lines: seq<string>, k: nat)
    ensures !ShallowAfter(Indented(lines), k, 6)
  {
    forall i | k <= i < |lines| ensures LeadingSpaces(Indented(lines)[i]) >= 6 { IndentedLine(lines[i]); }
  }

  lemma {:induction false} LongBeforeExactly(lines: seq<string>, k: nat)
    requires k <= |lines|
    ensures LongBefore(Indented(lines), k, 6) <==> !(forall i :: 0 <= i < k ==> lines[i] == "")
  {
    forall i | 0 <= i < k ensures |Indented(lines)[i]| > 6 <==> lines[i] != "" {
      assert Indented(lines)[i] == INDENT + lines[i];
    }
  }

  /**
   * A block reads back as its content, clipped, if and only if the content is plain. Any other content
   * is an error or loses its leading spaces.
   */
  lemma {:induction false} BlockReadsBackExactly(content: string)
    ensures ReadBlock(Indented(Split(content, '\n'))) == Some(Clip(Split(content, '\n'))) <==> Plain(content)
  {
    var lines := Split(content, '\n');
    var k := FirstText(lines);
    if k == |lines| {
      BlankContentReads(lines);
    } else if LeadingSpaces(lines[k]) == 0 {
      UnspacedContentReads(lines, k);
    } else {
      PrintedBlock(lines);
      IndentedTextDiffers(lines, k);
    }
  }

  /** Stripping more than the printed indentation takes characters of the text line away. */
  lemma {:induction false} IndentedTextDiffers(lines: seq<string>, k: nat)
    requires k < |lines| && !Blank(lines[k]) && LeadingSpaces(lines[k]) > 0
    requires forall i :: 0 <= i < |lines| ==> '\n' !in lines[i]
    ensures Clip(StrippedAll(Indented(lines), 6 + LeadingSpaces(lines[k]))) != Clip(lines)
  {
    var indent := 6 + LeadingSpaces(lines[k]);
    var read := StrippedAll(Indented(lines), indent);
    TextLineNotEmpty(lines[k]);
    assert |read[k]| < |lines[k]|;
    forall i | 0 <= i < |read| ensures '\n' !in read[i] {
      assert '\n' !in INDENT + lines[i];
    }
    if Clip(read) == Clip(lines) { SameClipSameLine(read, lines, k); }
  }

  /** What a clipped content is: itself exactly when it is empty or ends in one line break after a text. */
  lemma {:induction false} ClipIsIdentityExactly(content: string)
    ensures Clip(Split(content, '\n')) == content <==>
            content == "" || (|content| >= 2 && content[|content| - 1] == '\n' && content[|content| - 2] != '\n')
  {
    JoinOfSplit(content, '\n');
    var lines := Split(content, '\n');
    ClipShape(lines);
    if |content| >= 2 && content[|content| - 1] == '\n' && content[|content| - 2] != '\n' {
      LastPart(lines);
      ClipOfText(lines, content);
    }
  }

  /** A text before one line break at the end is what clipping gives back. */
  lemma {:induction false} ClipOfText(lines: seq<string>, content: string)
    requires |lines| >= 2 && forall i :: 0 <= i < |lines| ==> '\n' !in lines[i]
    requires lines[|lines| - 1] == "" && Join(lines, '\n') == content
    requires |content| >= 2 && content[|content| - 1] == '\n' && content[|content| - 2] != '\n'
    ensures Clip(lines) == content
  {
    var m := |lines| - 1;
    JoinSnoc(lines[..m], lines[m]);
    assert lines == lines[..m] + [lines[m]];
    LastPart(lines[..m]);
    var body := Join(lines[..m], '\n');
    assert content == body + "\n" + "";
    assert content == body + "\n";
    assert body[|body| - 1] == content[|content| - 2];
  }

  lemma {:induction false} ClipShape(lines: seq<string>)
    requires forall i :: 0 <= i < |lines| ==> '\n' !in lines[i]
    ensures var r := Clip(lines); r == "" || (|r| >= 2 && r[|r| - 1] == '\n' && r[|r| - 2] != '\n')
  {
    if lines != [] {
      var m := |lines| - 1;
      if lines[m] == "" {
        ClipShape(lines[..m]);
      } else {
        LastPart(lines);
        var body := Join(lines, '\n');
        var last := lines[m];
        assert (body + "\n")[|body| - 1] == body[|body| - 1] == last[|last| - 1];
        assert last[|last| - 1] in last;
      }
    }
  }

  /** A join ends with its last part. */
  lemma {:induction false} LastPart(parts: seq<string>)
    requires |parts| >= 1 && forall i :: 0 <= i < |parts| ==> '\n' !in parts[i]
    ensures var last, s := parts[|parts| - 1], Join(parts, '\n');
      && |last| <= |s| && s[|s| - |last|..] == last
      && (last == "" <==> s == "" || s[|s| - 1] == '\n')
      && (|parts| == 1 <==> '\n' !in s)
  {
    if |parts| > 1 {
      LastPart(parts[1..]);
      var tail := Join(parts[1..], '\n');
      var s := Join(parts, '\n');
      var last := parts[|parts| - 1];
      assert s == parts[0] + "\n" + tail;
      assert s[|parts[0]|] == '\n';
      assert s[|s| - |last|..] == tail[|tail| - |last|..];
      if tail != "" { assert s[|s| - 1] == tail[|tail| - 1]; }
    } else {
      var last := parts[0];
      if last != "" { assert last[|last| - 1] in last; }
    }
  }

  lemma {:induction false} JoinSnoc(parts: seq<string>, last: string)
    requires |parts| >= 1
    ensures Join(parts + [last], '\n') == Join(parts, '\n') + "\n" + last
  {
    if |parts| > 1 {
      JoinSnoc(parts[1..], last);
      assert (parts + [last])[1..] == parts[1..] + [last];
    }
  }

  // ----- the document ------------------------------------------------------------------------

  /** No line that an item goes on with: nothing, or a text line indented by less than four. */
  ghost predicate Stops(lines: seq<string>) {
    lines == [] || (!Blank(lines[0]) && LeadingSpaces(lines[0]) < 4)
  }

  ghost predicate NoField(lines: seq<string>, prefix: string) {
    lines == [] || !(prefix <= lines[0])
  }

  ghost predicate OneLine(s: string) {
    '\n' !in s
  }

  ghost predicate OneLineScalars(f: WriteFile) {
    OneLine(f.path) && OneLine(f.encoding) && OneLine(f.owner) && OneLine(f.permissions) && OneLine(f.defer)
  }

  lemma {:induction false} FourSpaces(line: string, rest: string)
    requires line == "    " + rest && rest != "" && rest[0] != ' '
    ensures LeadingSpaces(line) == 4 && !Blank(line)
  {
    var s1 := " " + rest;
    var s2 := " " + s1;
    var s3 := " " + s2;
    OneMoreSpace(rest);
    OneMoreSpace(s1);
    OneMoreSpace(s2);
    OneMoreSpace(s3);
    assert line == " " + s3;
  }

  /** A line that starts with a property name is indented by four. */
  lemma {:induction false} PropertyIsIndented(line: string, name: string)
    requires |name| > 0 && name[0] != ' ' && "    " + name <= line
    ensures LeadingSpaces(line) == 4 && !Blank(line)
  {
    assert line == "    " + line[4..];
    assert line[4] == name[0];
    FourSpaces(line, line[4..]);
  }

  lemma {:induction false} StopsHasNoField(lines: seq<string>)
    requires Stops(lines)
    ensures NoField(lines, ENCODING) && NoField(lines, OWNER) && NoField(lines, PERMISSIONS)
        && NoField(lines, DEFER) && NoField(lines, CONTENT)
  {
    if lines != [] {
      if ENCODING <= lines[0] { PropertyIsIndented(lines[0], "encoding: "); }
      if OWNER <= lines[0] { PropertyIsIndented(lines[0], "owner: "); }
      if PERMISSIONS <= lines[0] { PropertyIsIndented(lines[0], "permissions: '"); }
      if DEFER <= lines[0] { PropertyIsIndented(lines[0], "defer: "); }
      if CONTENT <= lines[0] { PropertyIsIndented(lines[0], "content: |"); }
    }
  }

  lemma {:induction false} ReadFieldBack(prefix: string, value: string, suffix: string, rest: seq<string>)
    requires NoField(rest, prefix)
    ensures ReadField(Field(prefix, value, suffix) + rest, prefix, suffix) == (value, rest)
  {
    if value == "" {
      assert Field(prefix, value, suffix) + rest == rest;
    } else {
      var line := prefix + value + suffix;
      assert prefix <= line;
      assert line[|prefix|..|line| - |suffix|] == value;
      assert ([line] + rest)[1..] == rest;
    }
  }

  /** Properties that come later do not look like an earlier one. */
  lemma {:induction false} LaterFieldDiffers(prefix: string, next: string, value: string, suffix: string,
      rest: seq<string>)
    requires |prefix| > 4 && |next| > 4 && prefix[4] != next[4] && NoField(rest, prefix)
    ensures NoField(Field(next, value, suffix) + rest, prefix)
  {
    if value == "" {
      assert Field(next, value, suffix) + rest == rest;
    } else {
      assert (next + value + suffix)[4] == next[4];
    }
  }

  lemma {:induction false} ContentDiffers(prefix: string, content: string, rest: seq<string>)
    requires |prefix| > 4 && prefix[4] != 'c' && NoField(rest, prefix)
    ensures NoField(ContentLines(content) + rest, prefix)
  {
    if content == "" {
      assert ContentLines(content) + rest == rest;
    } else {
      assert CONTENT[4] == 'c';
    }
  }

  lemma {:induction false} BlockEndsBefore(lines: seq<string>, rest: seq<string>)
    requires Stops(rest)
    ensures BlockLength(Indented(lines) + rest) == |lines|
  {
    if lines == [] {
      assert Indented(lines) + rest == rest;
    } else {
      IndentedLine(lines[0]);
      BlockEndsBefore(lines[1..], rest);
      assert (Indented(lines) + rest)[1..] == Indented(lines[1..]) + rest;
    }
  }

  /** The content an item reads back. */
  ghost function ReadOf(content: string): Option<string> {
    if content == "" then Some("") else ReadBlock(Indented(Split(content, '\n')))
  }

  lemma {:induction false} ReadBlockLines(block: seq<string>, rest: seq<string>)
    requires BlockLength(block + rest) == |block|
    ensures ReadContent([CONTENT] + (block + rest)) == (ReadBlock(block), rest)
  {
    var all := [CONTENT] + (block + rest);
    assert all[1..] == block + rest;
    assert all[1..][..|block|] == block && all[1..][|block|..] == rest;
  }

  lemma {:induction false} ReadContentBack(content: string, rest: seq<string>)
    requires Stops(rest)
    ensures ReadContent(ContentLines(content) + rest) == (ReadOf(content), rest)
  {
    if content == "" {
      StopsHasNoField(rest);
      assert ContentLines(content) + rest == rest;
    } else {
      var lines := Split(content, '\n');
      BlockEndsBefore(lines, rest);
      ReadBlockLines(Indented(lines), rest);
      Reassociate([CONTENT], Indented(lines), rest);
    }
  }

  ghost function ReadOfFile(f: WriteFile): Option<WriteFile> {
    var content := ReadOf(f.content);
    if content.Some? then Some(f.(content := content.value)) else None
  }

  /** The lines of an item after its path, from the last property back. */
  lemma {:induction false} EntryTail(f: WriteFile, rest: seq<string>)
    ensures EntryLines(f) + rest
         == [PATH + f.path] + (Field(ENCODING, f.encoding, "") + (Field(OWNER, f.owner, "")
            + (Field(PERMISSIONS, f.permissions, "'")
               + (Field(DEFER, f.defer, "") + (ContentLines(f.content) + rest)))))
  {
    SixParts([PATH + f.path], Field(ENCODING, f.encoding, ""), Field(OWNER, f.owner, ""),
             Field(PERMISSIONS, f.permissions, "'"),
             Field(DEFER, f.defer, ""), ContentLines(f.content), rest);
  }

  lemma {:induction false} SixParts(a: seq<string>, b: seq<string>, c: seq<string>, d: seq<string>, e: seq<string>,
      g: seq<string>, rest: seq<string>)
    ensures a + b + c + d + e + g + rest == a + (b + (c + (d + (e + (g + rest)))))
  {
    Reassociate(a + b + c + d + e, g, rest);
    Reassociate(a + b + c + d, e, g + rest);
    Reassociate(a + b + c, d, e + (g + rest));
    Reassociate(a + b, c, d + (e + (g + rest)));
    Reassociate(a, b, c + (d + (e + (g + rest))));
  }

  /** One printed item is read back whole, and the reader stops at what follows it. */
  lemma {:induction false} ReadEntryBack(f: WriteFile, rest: seq<string>)
    requires Stops(rest)
    ensures var lines := EntryLines(f) + rest;
      lines != [] && PATH <= lines[0] && ReadEntry(lines) == (ReadOfFile(f), rest)
  {
    EntryTail(f, rest);
    StopsHasNoField(rest);
    var l4 := ContentLines(f.content) + rest;
    var l3 := Field(DEFER, f.defer, "") + l4;
    var l2 := Field(PERMISSIONS, f.permissions, "'") + l3;
    var l1 := Field(OWNER, f.owner, "") + l2;
    var l0 := Field(ENCODING, f.encoding, "") + l1;
    ContentDiffers(DEFER, f.content, rest);
    ContentDiffers(PERMISSIONS, f.content, rest);
    ContentDiffers(OWNER, f.content, rest);
    ContentDiffers(ENCODING, f.content, rest);
    LaterFieldDiffers(PERMISSIONS, DEFER, f.defer, "", l4);
    LaterFieldDiffers(OWNER, DEFER, f.defer, "", l4);
    LaterFieldDiffers(ENCODING, DEFER, f.defer, "", l4);
    LaterFieldDiffers(OWNER, PERMISSIONS, f.permissions, "'", l3);
    LaterFieldDiffers(ENCODING, PERMISSIONS, f.permissions, "'", l3);
    LaterFieldDiffers(ENCODING, OWNER, f.owner, "", l2);
    ReadFieldBack(ENCODING, f.encoding, "", l1);
    ReadFieldBack(OWNER, f.owner, "", l2);
    ReadFieldBack(PERMISSIONS, f.permissions, "'", l3);
    ReadFieldBack(DEFER, f.defer, "", l4);
    ReadContentBack(f.content, rest);
    ReadEntryParts(f, l0, l1, l2, l3, l4, rest);
  }

  lemma {:induction false} ReadEntryParts(f: WriteFile, l0: seq<string>, l1: seq<string>, l2: seq<string>,
      l3: seq<string>, l4: seq<string>, rest: seq<string>)
    requires ReadField(l0, ENCODING, "") == (f.encoding, l1) && ReadField(l1, OWNER, "") == (f.owner, l2)
    requires ReadField(l2, PERMISSIONS, "'") == (f.permissions, l3) && ReadField(l3, DEFER, "") == (f.defer, l4)
    requires ReadContent(l4) == (ReadOf(f.content), rest)
    ensures ReadEntry([PATH + f.path] + l0) == (ReadOfFile(f), rest)
  {
    assert ([PATH + f.path] + l0)[1..] == l0;
    assert (PATH + f.path)[|PATH|..] == f.path;
  }

  ghost function ReadOfAll(files: seq<WriteFile>): Option<seq<WriteFile>> {
    if files == [] then Some([])
    else Both(ReadOfFile(files[0]), ReadOfAll(files[1..]))
  }

  lemma {:induction false} FileLinesFront(files: seq<WriteFile>)
    requires files != []
    ensures FileLines(files) == EntryLines(files[0]) + FileLines(files[1..])
  {
    var n := |files| - 1;
    if n > 0 {
      FileLinesFront(files[..n]);
      assert files[..n][1..] == files[1..][..n - 1];
      Reassociate(EntryLines(files[0]), FileLines(files[..n][1..]), EntryLines(files[n]));
    }
  }

  /** What follows the section starts at column zero. */
  ghost predicate AtColumnZero(lines: seq<string>) {
    lines == [] || (lines[0] != "" && lines[0][0] != ' ')
  }

  lemma {:induction false} ItemStops(path: string, rest: seq<string>)
    ensures Stops([PATH + path] + rest)
  {
    var s := "- path: " + path;
    OneMoreSpace(s);
    OneMoreSpace(" " + s);
    assert PATH + path == " " + (" " + s);
  }

  lemma {:induction false} ReadEntriesStep(all: seq<string>, f: WriteFile, rest: seq<string>, fuel: nat)
    requires Stops(rest) && fuel > 0 && all == EntryLines(f) + rest
    ensures ReadEntries(all, fuel) == Both(ReadOfFile(f), ReadEntries(rest, fuel - 1))
  {
    ReadEntryBack(f, rest);
  }

  lemma {:induction false} FileLinesSplit(files: seq<WriteFile>, after: seq<string>)
    requires files != []
    ensures FileLines(files) + after == EntryLines(files[0]) + (FileLines(files[1..]) + after)
  {
    FileLinesFront(files);
    Reassociate(EntryLines(files[0]), FileLines(files[1..]), after);
  }

  lemma {:induction false} NothingToRead(after: seq<string>, fuel: nat)
    requires AtColumnZero(after)
    ensures ReadEntries(after, fuel) == Some([])
  {
    assert PATH[0] == ' ';
  }

  /** The lines of the items and what follows them, from the front. */
  ghost function Following(printed: WriteFile -> seq<string>, files: seq<WriteFile>, after: seq<string>): seq<string> {
    if files == [] then after else printed(files[0]) + Following(printed, files[1..], after)
  }

  lemma {:induction false} FollowingIs(files: seq<WriteFile>, after: seq<string>)
    ensures Following(EntryLines, files, after) == FileLines(files) + after
  {
    if files != [] {
      FollowingIs(files[1..], after);
      FileLinesSplit(files, after);
    }
  }

  lemma {:induction false} EntryStops(f: WriteFile, rest: seq<string>)
    ensures Stops(EntryLines(f) + rest)
  {
    var all := EntryLines(f) + rest;
    ItemStops(f.path, all[1..]);
    assert all == [PATH + f.path] + all[1..];
  }

  lemma {:induction false} FollowingStops(printed: WriteFile -> seq<string>, files: seq<WriteFile>, after: seq<string>)
    requires Stops(after)
    requires forall f, rest :: Stops(printed(f) + rest)
    ensures Stops(Following(printed, files, after))
  {
  }

  /** A reader that reads one item and goes on reads a list of items, whatever an item looks like. */
  lemma {:induction false} ReadsItemByItem(printed: WriteFile -> seq<string>,
      read: (seq<string>, nat) -> Option<seq<WriteFile>>, files: seq<WriteFile>, after: seq<string>, fuel: nat)
    requires Stops(after) && (forall n: nat :: read(after, n) == Some([])) && fuel >= |files|
    requires forall f, rest :: Stops(printed(f) + rest)
    requires forall f, rest, n: nat :: Stops(rest) && n > 0 ==>
      read(printed(f) + rest, n) == Both(ReadOfFile(f), read(rest, n - 1))
    ensures read(Following(printed, files, after), fuel) == ReadOfAll(files)
  {
    if files != [] {
      FollowingStops(printed, files[1..], after);
      ReadsItemByItem(printed, read, files[1..], after, fuel - 1);
    }
  }

  lemma {:induction false} ZeroStops(after: seq<string>)
    requires AtColumnZero(after)
    ensures Stops(after)
  {
  }

  lemma {:induction false} ReadEntriesBack(files: seq<WriteFile>, after: seq<string>, fuel: nat)
    requires AtColumnZero(after) && fuel >= |files|
    ensures ReadEntries(Following(EntryLines, files, after), fuel) == ReadOfAll(files)
  {
    ZeroStops(after);
    forall n: nat ensures ReadEntries(after, n) == Some([]) { NothingToRead(after, n); }
    forall f, rest ensures Stops(EntryLines(f) + rest) { EntryStops(f, rest); }
    forall f, rest, n: nat | Stops(rest) && n > 0
      ensures ReadEntries(EntryLines(f) + rest, n) == Both(ReadOfFile(f), ReadEntries(rest, n - 1))
    {
      ReadEntriesStep(EntryLines(f) + rest, f, rest, n);
    }
    ReadsItemByItem(EntryLines, ReadEntries, files, after, fuel);
  }

  lemma {:induction false} EntryIsOneLineEach(f: WriteFile)
    requires OneLineScalars(f)
    ensures forall k :: 0 <= k < |EntryLines(f)| ==> OneLine(EntryLines(f)[k])
  {
    forall line | line in ContentLines(f.content) ensures OneLine(line) {}
    forall line | line in Field(ENCODING, f.encoding, "") + Field(OWNER, f.owner, "") ensures OneLine(line) {}
    forall line | line in Field(PERMISSIONS, f.permissions, "'") + Field(DEFER, f.defer, "") ensures OneLine(line) {}
    forall line | line in EntryLines(f) ensures OneLine(line) {}
  }

  lemma {:induction false} FilesAreOneLineEach(files: seq<WriteFile>)
    requires forall f :: f in files ==> OneLineScalars(f)
    ensures forall k :: 0 <= k < |FileLines(files)| ==> OneLine(FileLines(files)[k])
  {
    if files != [] {
      var n := |files| - 1;
      assert files[n] in files && forall f :: f in files[..n] ==> f in files;
      FilesAreOneLineEach(files[..n]);
      EntryIsOneLineEach(files[n]);
    }
  }

  lemma {:induction false} IndexAfter(before: seq<string>, rest: seq<string>, line: string)
    requires line !in before
    ensures IndexOfLine(before + [line] + rest, line) == |before|
  {
    if before != [] {
      IndexAfter(before[1..], rest, line);
      assert (before + [line] + rest)[1..] == before[1..] + [line] + rest;
    }
  }

  lemma {:induction false} FileLinesCount(files: seq<WriteFile>)
    ensures |FileLines(files)| >= |files|
  {
    if files != [] { FileLinesCount(files[..|files| - 1]); }
  }

  /** Every file as it was given, its content clipped. */
  ghost function Clipped(files: seq<WriteFile>): seq<WriteFile> {
    if files == [] then []
    else [files[0].(content := Clip(Split(files[0].content, '\n')))] + Clipped(files[1..])
  }

  lemma {:induction false} ReadOfFileExactly(f: WriteFile)
    ensures ReadOfFile(f) == Some(f.(content := Clip(Split(f.content, '\n')))) <==> Plain(f.content)
  {
    if f.content == "" {
      assert Split("", '\n') == [""];
      ClipOfEmptyLines([""]);
      assert Plain("");
    } else {
      BlockReadsBackExactly(f.content);
    }
  }

  lemma {:induction false} BothExactly(f: Option<WriteFile>, others: Option<seq<WriteFile>>, x: WriteFile,
      xs: seq<WriteFile>)
    ensures Both(f, others) == Some([x] + xs) <==> f == Some(x) && others == Some(xs)
  {
    if Both(f, others) == Some([x] + xs) {
      assert ([f.value] + others.value)[0] == ([x] + xs)[0];
      assert ([f.value] + others.value)[1..] == others.value && ([x] + xs)[1..] == xs;
    }
  }

  lemma {:induction false} ReadOfAllExactly(files: seq<WriteFile>)
    ensures ReadOfAll(files) == Some(Clipped(files)) <==> forall f :: f in files ==> Plain(f.content)
  {
    if files != [] {
      ReadOfFileExactly(files[0]);
      ReadOfAllExactly(files[1..]);
      BothExactly(ReadOfFile(files[0]), ReadOfAll(files[1..]),
                  files[0].(content := Clip(Split(files[0].content, '\n'))), Clipped(files[1..]));
      AllFrontAndRest(files);
    }
  }

  lemma {:induction false} AllFrontAndRest(files: seq<WriteFile>)
    requires files != []
    ensures (forall f :: f in files ==> Plain(f.content))
       <==> Plain(files[0].content) && forall f :: f in files[1..] ==> Plain(f.content)
  {
    assert forall f :: f in files <==> f == files[0] || f in files[1..];
  }

  /**
   * The round trip of a generated document, for any list of files with one-line scalars between any one-line
   * sections: the reader gets every path, encoding, owner, permissions, defer and clipped content back if and
   * only if every content is plain.
   */
  lemma {:induction false} DocumentReadsBackExactly(before: seq<string>, files: seq<WriteFile>, after: seq<string>)
    requires forall k :: 0 <= k < |before| ==> OneLine(before[k])
    requires forall k :: 0 <= k < |after| ==> OneLine(after[k])
    requires "write_files:" !in before && AtColumnZero(after)
    requires forall f :: f in files ==> OneLineScalars(f)
    ensures ReadDocument(Document(before, files, after)) == Some(Clipped(files))
       <==> forall f :: f in files ==> Plain(f.content)
  {
    var lines := before + ["write_files:"] + (FileLines(files) + after);
    Reassociate(before + ["write_files:"], FileLines(files), after);
    LinesAreOneLineEach(before, files, after, lines);
    SplitOfJoin(lines, '\n');
    ReadLines(before, files, after);
    ReadOfAllExactly(files);
  }

  lemma {:induction false} LinesAreOneLineEach(before: seq<string>, files: seq<WriteFile>, after: seq<string>,
      lines: seq<string>)
    requires lines == before + ["write_files:"] + (FileLines(files) + after)
    requires forall k :: 0 <= k < |before| ==> OneLine(before[k])
    requires forall k :: 0 <= k < |after| ==> OneLine(after[k])
    requires forall f :: f in files ==> OneLineScalars(f)
    ensures forall k :: 0 <= k < |lines| ==> '\n' !in lines[k]
  {
    FilesAreOneLineEach(files);
  }

  lemma {:induction false} ReadLines(before: seq<string>, files: seq<WriteFile>, after: seq<string>)
    requires "write_files:" !in before && AtColumnZero(after)
    ensures var lines := before + ["write_files:"] + (FileLines(files) + after);
      && IndexOfLine(lines, "write_files:") == |before| && |before| < |lines|
      && ReadEntries(lines[|before| + 1..], |lines|) == ReadOfAll(files)
  {
    var rest := FileLines(files) + after;
    var lines := before + ["write_files:"] + rest;
    IndexAfter(before, rest, "write_files:");
    assert lines[|before| + 1..] == rest;
    FileLinesCount(files);
    FollowingIs(files, after);
    ReadEntriesBack(files, after, |lines|);
  }
}

/** The `--args key=value,...` parser of the domain commands and the normalized context built on it. */
module DomainArgs {
  import opened Wrappers
  import opened Text

  // ----- trimming ----------------------------------------------------------------------------

  /** The characters `trim` removes: white space and line terminators. */
  predicate IsSpace(c: char) {
    || c in " \t\n\r"
    || c in ['\U{000B}', '\U{000C}', '\U{00A0}', '\U{1680}', '\U{2028}', '\U{2029}', '\U{202F}', '\U{205F}',
             '\U{3000}', '\U{FEFF}']
    || '\U{2000}' <= c <= '\U{200A}'
  }

  function TrimStart(s: string): string {
    if s != "" && IsSpace(s[0]) then TrimStart(s[1..]) else s
  }

  function TrimEnd(s: string): string {
    if s != "" && IsSpace(s[|s| - 1]) then TrimEnd(s[..|s| - 1]) else s
  }

  function Trim(s: string): string {
    TrimEnd(TrimStart(s))
  }

  /** No white space at either end. */
  predicate Trimmed(s: string) {
    s == "" || (!IsSpace(s[0]) && !IsSpace(s[|s| - 1]))
  }

  lemma {:induction false} TrimEndKeepsStart(s: string)
    ensures TrimEnd(s) <= s
    ensures s != "" && !IsSpace(s[0]) ==> TrimEnd(s) != "" && TrimEnd(s)[0] == s[0]
    ensures TrimEnd(s) == "" || !IsSpace(TrimEnd(s)[|TrimEnd(s)| - 1])
  {
    if s != "" && IsSpace(s[|s| - 1]) { TrimEndKeepsStart(s[..|s| - 1]); }
  }

  lemma {:induction false} TrimStartIsSuffix(s: string)
    ensures |TrimStart(s)| <= |s| && TrimStart(s) == s[|s| - |TrimStart(s)|..]
    ensures TrimStart(s) == "" || !IsSpace(TrimStart(s)[0])
  {
    if s != "" && IsSpace(s[0]) { TrimStartIsSuffix(s[1..]); }
  }

  /** A trim leaves no outer space, and takes nothing from a text that has none. */
  lemma {:induction false} TrimIsExact(s: string)
    ensures Trimmed(Trim(s))
    ensures Trim(s) == s <==> Trimmed(s)
    ensures forall c :: c in Trim(s) ==> c in s
  {
    TrimStartIsSuffix(s);
    TrimEndKeepsStart(TrimStart(s));
  }

  // ----- parsing -----------------------------------------------------------------------------

  /** A bare key is the boolean `true`. */
  datatype Value = Flag | Text(text: string)

  type Args = map<string, Value>
  type Entry = (string, Value)

  /** What `--args` may be: absent, the raw text, or an object that was parsed already. */
  datatype RawArgs = Missing | Raw(value: string) | Parsed(args: Args)

  function IndexOf(s: string, c: char): (i: nat)
    ensures i <= |s|
    ensures c !in s[..i]
    ensures i < |s| ==> s[i] == c
  {
    if s == "" || s[0] == c then 0 else 1 + IndexOf(s[1..], c)
  }

  /** Only the first `=` separates. */
  function ParseEntry(entry: string): Entry {
    var index := IndexOf(entry, '=');
    if index == |entry| then (entry, Flag) else (Trim(entry[..index]), Text(entry[index + 1..]))
  }

  /** The parts, trimmed, the empty ones left out, each split at its first `=`. */
  function Entries(parts: seq<string>): seq<Entry> {
    if parts == [] then []
    else
      var entry := Trim(parts[0]);
      if entry == "" then Entries(parts[1..]) else [ParseEntry(entry)] + Entries(parts[1..])
  }

  /** `Object.fromEntries`: a later entry of a key replaces an earlier one. */
  function FromEntries(entries: seq<Entry>): Args {
    if entries == [] then map[]
    else FromEntries(entries[..|entries| - 1])[entries[|entries| - 1].0 := entries[|entries| - 1].1]
  }

  function ParseText(value: string): Args {
    FromEntries(Entries(Split(value, ',')))
  }

  function ParseDomainArgs(raw: RawArgs): Args {
    match raw
    case Missing => ParseText("")
    case Raw(value) => ParseText(value)
    case Parsed(args) => args
  }

  /** The last entry of a key wins. */
  lemma {:induction false} LastEntryWins(entries: seq<Entry>, k: string)
    ensures k in FromEntries(entries) <==> exists i :: 0 <= i < |entries| && entries[i].0 == k
    ensures forall i ::
      0 <= i < |entries| && entries[i].0 == k && (forall j :: i < j < |entries| ==> entries[j].0 != k) ==>
        k in FromEntries(entries) && FromEntries(entries)[k] == entries[i].1
  {
    if entries != [] {
      var n := |entries| - 1;
      LastEntryWins(entries[..n], k);
      assert forall i :: 0 <= i < n ==> entries[..n][i] == entries[i];
      if k in FromEntries(entries[..n]) {
        var i :| 0 <= i < n && entries[..n][i].0 == k;
        assert entries[i].0 == k;
      }
    }
  }

  // ----- printing ----------------------------------------------------------------------------

  function PrintEntry(e: Entry): string {
    match e.1
    case Flag => e.0
    case Text(text) => e.0 + "=" + text
  }

  function PrintParts(entries: seq<Entry>): (parts: seq<string>)
    ensures |parts| == |entries|
    ensures forall k :: 0 <= k < |parts| ==> parts[k] == PrintEntry(entries[k])
  {
    if entries == [] then [] else [PrintEntry(entries[0])] + PrintParts(entries[1..])
  }

  function Print(entries: seq<Entry>): string {
    Join(PrintParts(entries), ',')
  }

  /** The entries the text form can carry. */
  ghost predicate Printable(e: Entry) {
    && ',' !in e.0 && '=' !in e.0 && Trimmed(e.0)
    && match e.1
       case Flag => e.0 != ""
       case Text(text) => ',' !in text && (text == "" || !IsSpace(text[|text| - 1]))
  }

  lemma {:induction false} IndexOfFirst(key: string, text: string)
    requires '=' !in key
    ensures IndexOf(key + "=" + text, '=') == |key|
  {
    if key != "" {
      IndexOfFirst(key[1..], text);
      assert (key + "=" + text)[1..] == key[1..] + "=" + text;
    }
  }

  lemma {:induction false} IndexOfNone(s: string, c: char)
    requires c !in s
    ensures IndexOf(s, c) == |s|
  {
    if s != "" { IndexOfNone(s[1..], c); }
  }

  /** A printed entry has no outer space and parses to the entry. */
  lemma {:induction false} PrintedEntryParses(e: Entry)
    requires Printable(e)
    ensures var s := PrintEntry(e); s != "" && Trimmed(s) && ',' !in s && ParseEntry(s) == e
  {
    match e.1
    case Flag => IndexOfNone(e.0, '=');
    case Text(text) =>
      var s := e.0 + "=" + text;
      IndexOfFirst(e.0, text);
      assert s[..|e.0|] == e.0 && s[|e.0| + 1..] == text;
      assert s[0] == (if e.0 == "" then '=' else e.0[0]);
      assert s[|s| - 1] == (if text == "" then '=' else text[|text| - 1]);
      TrimIsExact(e.0);
  }

  lemma {:induction false} EntriesOfPrinted(entries: seq<Entry>)
    requires forall k :: 0 <= k < |entries| ==> Printable(entries[k])
    ensures Entries(PrintParts(entries)) == entries
  {
    if entries != [] {
      PrintedEntryParses(entries[0]);
      TrimIsExact(PrintEntry(entries[0]));
      EntriesOfPrinted(entries[1..]);
      assert PrintParts(entries)[1..] == PrintParts(entries[1..]);
    }
  }

  /** Printing entries and parsing the text gives their object back, duplicates resolved the same way. */
  lemma {:induction false} ParseOfPrint(entries: seq<Entry>)
    requires forall k :: 0 <= k < |entries| ==> Printable(entries[k])
    ensures ParseText(Print(entries)) == FromEntries(entries)
  {
    if entries == [] {
      assert Print(entries) == "" && Split("", ',') == [""];
      assert Entries([""]) == [];
    } else {
      forall k | 0 <= k < |entries| ensures ',' !in PrintParts(entries)[k] { PrintedEntryParses(entries[k]); }
      SplitOfJoin(PrintParts(entries), ',');
      EntriesOfPrinted(entries);
    }
  }

  lemma {:induction false} ParsedEntryPrintable(entry: string)
    requires entry != "" && Trimmed(entry) && ',' !in entry
    ensures Printable(ParseEntry(entry))
  {
    var index := IndexOf(entry, '=');
    if index == |entry| {
      assert entry[..index] == entry;
    } else {
      TrimIsExact(entry[..index]);
      var text := entry[index + 1..];
      if text != "" { assert text[|text| - 1] == entry[|entry| - 1]; }
    }
  }

  lemma {:induction false} EntriesArePrintable(parts: seq<string>)
    requires forall k :: 0 <= k < |parts| ==> ',' !in parts[k]
    ensures forall k :: 0 <= k < |Entries(parts)| ==> Printable(Entries(parts)[k])
  {
    if parts != [] {
      EntriesArePrintable(parts[1..]);
      TrimIsExact(parts[0]);
      if Trim(parts[0]) != "" { ParsedEntryPrintable(Trim(parts[0])); }
    }
  }

  /**
   * The printable objects are exactly the parsed ones: whatever text is parsed, every entry of the result can
   * be printed and comes back; no other key and no other value is ever produced.
   */
  lemma {:induction false} ParsedIsPrintable(value: string, k: string)
    requires k in ParseText(value)
    ensures Printable((k, ParseText(value)[k]))
  {
    var entries := Entries(Split(value, ','));
    EntriesArePrintable(Split(value, ','));
    FromEntriesMember(entries, k);
  }

  lemma {:induction false} FromEntriesMember(entries: seq<Entry>, k: string)
    requires k in FromEntries(entries)
    ensures (k, FromEntries(entries)[k]) in entries
  {
    var n := |entries| - 1;
    if entries[n].0 == k {
      assert entries[n] == (k, FromEntries(entries)[k]);
    } else {
      FromEntriesMember(entries[..n], k);
    }
  }

  /** Printing what was parsed and parsing again changes nothing. */
  lemma {:induction false} ParseIsStable(value: string)
    ensures ParseText(Print(Entries(Split(value, ',')))) == ParseText(value)
  {
    EntriesArePrintable(Split(value, ','));
    ParseOfPrint(Entries(Split(value, ',')));
  }

  /** A value keeps every `=` after the first. */
  lemma {:induction false} ValueKeepsEquals(key: string, text: string)
    requires key != "" && Printable((key, Text(text)))
    ensures ParseText(key + "=" + text) == map[key := Text(text)]
  {
    var entries: seq<Entry> := [(key, Text(text))];
    ParseOfPrint(entries);
    assert PrintParts(entries) == [key + "=" + text];
    assert FromEntries(entries) == map[key := Text(text)];
  }

  // ----- the context -------------------------------------------------------------------------

  datatype Options = Options(env: Option<string>, namespace: Option<string>, args: RawArgs, dryRun: Option<bool>,
      force: Option<bool>)

  datatype Context = Context(env: string, namespace: string, args: Args, dryRun: bool, force: bool)

  function OrDefault(value: Option<string>, fallback: string): string {
    var text := if value.Some? then Trim(value.value) else Trim("");
    if text == "" then fallback else text
  }

  function DomainContextFactory(o: Options): Context {
    Context(OrDefault(o.env, "production"), OrDefault(o.namespace, "default"), ParseDomainArgs(o.args),
            o.dryRun == Some(true), o.force == Some(true))
  }

  /** A context handed to an action again as its options. */
  function AsOptions(c: Context): Options {
    Options(Some(c.env), Some(c.namespace), Parsed(c.args), Some(c.dryRun), Some(c.force))
  }

  /** Normalizing a context twice is normalizing it once. */
  lemma {:induction false} FactoryIsIdempotent(o: Options)
    ensures DomainContextFactory(AsOptions(DomainContextFactory(o))) == DomainContextFactory(o)
  {
    assert Trimmed("production") && Trimmed("default");
    OrDefaultIsStable(o.env, "production");
    OrDefaultIsStable(o.namespace, "default");
  }

  lemma {:induction false} OrDefaultIsStable(value: Option<string>, fallback: string)
    requires fallback != "" && Trimmed(fallback)
    ensures OrDefault(Some(OrDefault(value, fallback)), fallback) == OrDefault(value, fallback)
  {
    if value.Some? { TrimIsExact(value.value); }
    TrimIsExact(OrDefault(value, fallback));
  }
}

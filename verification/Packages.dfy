/** The package index of a feed: how a release prints it and how it is parsed. */
module Packages {
  import opened Wrappers
  import opened Text

  // ----- Ordered dictionaries -----

  /** The attributes of a package in order; only Require may be None. */
  type Dict = seq<(string, Option<string>)>

  predicate Has(d: Dict, k: string) {
    exists i :: 0 <= i < |d| && d[i].0 == k
  }

  function Lookup(d: Dict, k: string): Option<string> {
    if d == [] then None else if d[0].0 == k then d[0].1 else Lookup(d[1..], k)
  }

  /** Assignment: a known key keeps its place, a new one goes to the end. */
  function Put(d: Dict, k: string, v: Option<string>): Dict {
    if d == [] then [(k, v)] else if d[0].0 == k then [(k, v)] + d[1..] else [d[0]] + Put(d[1..], k, v)
  }

  ghost predicate Unique(d: Dict) {
    forall i, j :: 0 <= i < j < |d| ==> d[i].0 != d[j].0
  }

  const FILENAME := "Filename"
  const VERSION := "Version"
  const REQUIRE := "Require"

  /** Attributes that are not published. */
  predicate Excluded(k: string) {
    k == "Source" || k == "Maintainer"
  }

  predicate Truthy(v: Option<string>) {
    v.Some? && v.value != ""
  }

  // ----- Parsing -----

  /** The first ": " of a line. */
  function FindSeparator(s: string): (r: Option<nat>)
    ensures r.Some? ==> r.value + 2 <= |s| && s[r.value] == ':' && s[r.value + 1] == ' '
  {
    if |s| < 2 then None
    else if s[0] == ':' && s[1] == ' ' then Some(0)
    else match FindSeparator(s[1..])
      case None => None
      case Some(i) => Some(i + 1)
  }

  /** The attributes stored so far, and the one being read; its name is empty before the first. */
  datatype Record = Record(stored: Dict, attribute: string, value: string)

  const START := Record([], "", "")

  /** Stores an attribute; a Version makes room for a Require that is not there yet. */
  function Store(d: Dict, k: string, v: string): Dict {
    var d1 := Put(d, k, Some(v));
    if k == VERSION && !Truthy(Lookup(d1, REQUIRE)) then Put(d1, REQUIRE, None) else d1
  }

  /** One line of a record; `None` where Python raises. */
  function ReadLine(r: Record, line: string): Option<Record>
    requires line != ""
  {
    if IsSpace(line[0]) then Some(r.(value := r.value + "\n" + RStrip(line)))
    else
      var stored := if r.attribute == "" then r.stored else Store(r.stored, r.attribute, r.value);
      match FindSeparator(line)
      case None => None
      case Some(i) => Some(Record(stored, line[..i], RStrip(line[i + 2..])))
  }

  function WithRequire(d: Dict): Dict {
    if Has(d, REQUIRE) then d else Put(d, REQUIRE, None)
  }

  function Finish(r: Record): Dict {
    WithRequire(if r.attribute == "" then r.stored else Put(r.stored, r.attribute, Some(r.value)))
  }

  predicate EndsRecord(line: string) {
    line == "" || line[0] == '\n'
  }

  /** _get_package_record: the package and the lines left over. */
  function ReadRecord(r: Record, lines: seq<string>): (p: Option<(Dict, seq<string>)>)
    ensures p.Some? && lines != [] ==> |p.value.1| < |lines|
    ensures p.Some? && lines == [] ==> p.value.1 == []
    decreases |lines|
  {
    if lines == [] then Some((Finish(r), []))
    else if EndsRecord(lines[0]) then Some((Finish(r), lines[1..]))
    else match ReadLine(r, lines[0])
      case None => None
      case Some(r') => ReadRecord(r', lines[1..])
  }

  predicate StartsRecord(line: string) {
    line != "" && !IsSpace(line[0])
  }

  /** Packages.__iter__ to its end; `None` where Python raises. */
  function ReadAll(lines: seq<string>): Option<seq<Dict>>
    decreases |lines|
  {
    if lines == [] then Some([])
    else if !StartsRecord(lines[0]) then ReadAll(lines[1..])
    else match ReadRecord(START, lines)
      case None => None
      case Some((p, rest)) =>
        match ReadAll(rest)
        case None => None
        case Some(ps) => Some([p] + ps)
  }

  /** Opening an index file and iterating over it. */
  function ReadIndex(text: string): Option<seq<Dict>> {
    ReadAll(Lines(Universal(text)))
  }

  // ----- Printing -----

  function Published(d: Dict): Dict {
    if d == [] then []
    else if Excluded(d[0].0) then Published(d[1..])
    else [d[0]] + Published(d[1..])
  }

  function PrintAttributes(d: Dict): string {
    if d == [] then ""
    else (if d[0].1.None? then "" else d[0].0 + ": " + d[0].1.value + "\n") + PrintAttributes(d[1..])
  }

  function PrintIndex(ps: seq<Dict>): string {
    if ps == [] then "" else PrintAttributes(Published(ps[0])) + "\n" + PrintIndex(ps[1..])
  }

  function FilenameOf(p: Dict): string {
    match Lookup(p, FILENAME)
    case None => ""
    case Some(f) => f
  }

  // ----- Well-formed packages -----

  /** A name that a parsed line can have. */
  ghost predicate GoodName(k: string) {
    k != "" && !IsSpace(k[0]) && FindSeparator(k).None? && '\n' !in k
  }

  /** A continuation line starts with space and ends with something visible. */
  ghost predicate GoodContinuation(s: string) {
    s != "" && IsSpace(s[0]) && !IsSpace(s[|s| - 1])
  }

  /**
   A value that parsed lines can have: no trailing space on any line, and further lines indented or,
   where blank lines were continued, empty.
   */
  ghost predicate GoodValue(v: string, clean: bool) {
    var parts := Split(v, '\n');
    && RStrip(parts[0]) == parts[0]
    && forall i :: 0 < i < |parts| ==> GoodContinuation(parts[i]) || (!clean && parts[i] == "")
  }

  ghost predicate GoodAttribute(a: (string, Option<string>), clean: bool) {
    GoodName(a.0) && if a.1.None? then a.0 == REQUIRE else GoodValue(a.1.value, clean)
  }

  ghost predicate GoodAttributes(d: Dict, clean: bool) {
    Unique(d) && forall i :: 0 <= i < |d| ==> GoodAttribute(d[i], clean)
  }

  /**
   Where a parsed Require is: right behind Version; or before any Version, where it is unset only if it
   was empty; or unset and last with no Version.
   */
  predicate Placed(d: Dict, clean: bool) {
    if d == [] then false
    else if d[0].0 == VERSION then |d| >= 2 && d[1].0 == REQUIRE
    else if d[0].0 == REQUIRE then SetFirst(d, clean) || (d[0].1.None? && |d| == 1)
    else Placed(d[1..], clean)
  }

  /** A Require before Version. */
  predicate SetFirst(d: Dict, clean: bool)
    requires d != []
  {
    if clean then Truthy(d[0].1) else d[0].1.Some? || Has(d[1..], VERSION)
  }

  /** No carriage return in any name or value; reading a file in text mode leaves none. */
  ghost predicate NoReturns(d: Dict) {
    forall i :: 0 <= i < |d| ==> '\r' !in d[i].0 && (d[i].1.Some? ==> '\r' !in d[i].1.value)
  }

  /** A package as the parser makes them, with a file name. */
  ghost predicate WellFormed(p: Dict) {
    GoodAttributes(p, false) && Placed(p, false) && Has(p, FILENAME) && NoReturns(p)
  }

  // ----- Which packages survive printing -----

  /** A line behind the first is empty. */
  predicate BlankLineIn(v: string) {
    exists i :: 0 < i < |Split(v, '\n')| && Split(v, '\n')[i] == ""
  }

  ghost predicate NoBlankLines(b: Dict) {
    forall i :: 0 <= i < |b| && b[i].1.Some? ==> !BlankLineIn(b[i].1.value)
  }

  /** A Require before Version is set, and empty only if Version comes last. */
  ghost predicate RequireKept(b: Dict) {
    forall i, j :: 0 <= i < j < |b| && b[i].0 == REQUIRE && b[j].0 == VERSION ==>
                     b[i].1.Some? && (b[i].1.value != "" || j == |b| - 1)
  }

  /** The published attributes are read back as they are printed. */
  ghost predicate Kept(b: Dict) {
    NoBlankLines(b) && RequireKept(b)
  }

  // ----- The parser and the printer -----

  /** _get_package_record on the lines from `start`; the package and where reading stopped, or an error. */
  method GetPackageRecord(lines: seq<string>, start: nat) returns (p: Option<Dict>, next: nat)
    requires start <= |lines|
    ensures start <= next <= |lines|
    ensures match ReadRecord(START, lines[start..])
            case None => p.None?
            case Some((d, rest)) => p == Some(d) && lines[next..] == rest
  {
    hide Store, RStrip, FindSeparator, Put;
    var attributes: Dict, attribute, value := [], "", "";
    next := start;
    while next < |lines|
      invariant start <= next <= |lines|
      invariant ReadRecord(START, lines[start..]) == ReadRecord(Record(attributes, attribute, value), lines[next..])
    {
      var line := lines[next];
      assert lines[next..][0] == line && lines[next..][1..] == lines[next + 1..];
      next := next + 1;
      if line == "" || line[0] == '\n' {
        break;
      }
      if !IsSpace(line[0]) {
        if attribute != "" {
          attributes := Store(attributes, attribute, value);
        }
        var i := FindSeparator(line);
        if i.None? {
          return None, next;
        }
        attribute, value := line[..i.value], RStrip(line[i.value + 2..]);
      } else {
        value := value + "\n" + RStrip(line);
      }
    }
    p := Some(Finish(Record(attributes, attribute, value)));
  }

  function After(read: seq<Dict>, rest: Option<seq<Dict>>): Option<seq<Dict>> {
    match rest
    case None => None
    case Some(ps) => Some(read + ps)
  }

  lemma {:induction false} AfterOne(read: seq<Dict>, p: Dict, rest: Option<seq<Dict>>)
    ensures After([], rest) == rest
    ensures After(read, After([p], rest)) == After(read + [p], rest)
  {
    if rest.Some? {
      assert [] + rest.value == rest.value;
      assert read + ([p] + rest.value) == read + [p] + rest.value;
    }
  }

  /** Packages.__iter__ to its end. */
  method ReadPackages(text: string) returns (ps: Option<seq<Dict>>)
    ensures ps == ReadIndex(text)
  {
    hide Lines, ReadRecord, Universal;
    var lines := Lines(Universal(text));
    var i, read := 0, [];
    assert lines[0..] == lines;
    AfterOne([], [], ReadAll(lines));
    while i < |lines|
      invariant 0 <= i <= |lines|
      invariant ReadAll(lines) == After(read, ReadAll(lines[i..]))
      decreases |lines| - i
    {
      assert lines[i..][0] == lines[i] && lines[i..][1..] == lines[i + 1..];
      if !StartsRecord(lines[i]) {
        i := i + 1;
      } else {
        var p, next := GetPackageRecord(lines, i);
        if p.None? {
          return None;
        }
        assert |lines[next..]| < |lines[i..]|;
        AfterOne(read, p.value, ReadAll(lines[next..]));
        read := read + [p.value];
        i := next;
      }
    }
    assert lines[i..] == [] && read + [] == read;
    return Some(read);
  }

  lemma {:induction false} PrintFrom(d: Dict, j: nat, text: string)
    requires j < |d|
    ensures text + PrintAttributes(d[j..]) ==
            text + (if d[j].1.None? then "" else d[j].0 + ": " + d[j].1.value + "\n") + PrintAttributes(d[j + 1..])
  {
    assert d[j..][1..] == d[j + 1..] && d[j..][0] == d[j];
    var line := if d[j].1.None? then "" else d[j].0 + ": " + d[j].1.value + "\n";
    assert PrintAttributes(d[j..]) == line + PrintAttributes(d[j + 1..]);
  }

  method WriteAttributes(d: Dict) returns (text: string)
    ensures text == PrintAttributes(d)
  {
    hide PrintAttributes;
    text := "";
    assert d[0..] == d && text + PrintAttributes(d) == PrintAttributes(d);
    for j := 0 to |d|
      invariant PrintAttributes(d) == text + PrintAttributes(d[j..])
    {
      PrintFrom(d, j, text);
      if d[j].1.Some? {
        text := text + (d[j].0 + ": " + d[j].1.value + "\n");
      }
    }
    assert d[|d|..] == [];
    NothingPrinted();
    assert text + "" == text;
  }

  lemma {:induction false} NothingPrinted()
    ensures PrintAttributes([]) == ""
  {
  }

  /** The index printer of _upload_feeds_packages, on packages in file name order. */
  method WriteIndex(ps: seq<Dict>) returns (text: string)
    ensures text == PrintIndex(ps)
  {
    hide PrintAttributes, Published;
    text := "";
    for i := 0 to |ps|
      invariant PrintIndex(ps) == text + PrintIndex(ps[i..])
    {
      var record := WriteAttributes(Published(ps[i]));
      assert ps[i..][1..] == ps[i + 1..] && ps[i..][0] == ps[i];
      assert text + (record + "\n" + PrintIndex(ps[i + 1..])) == text + record + "\n" + PrintIndex(ps[i + 1..]);
      text := text + record + "\n";
    }
  }
}

/**
 Printing a package index and parsing it again: exactly when the packages come back.
 */
module PackagesRoundTrip {
  import opened Wrappers
  import opened Text
  import opened Sorting
  import opened Packages
  import opened PackageDicts
  import opened PackagesParsed

  // ----- Reading printed attributes -----

  lemma {:induction false} SeparatorAfter(k: string, rest: string)
    requires FindSeparator(k).None?
    ensures FindSeparator(k + ": " + rest) == Some(|k|)
  {
    var s := k + ": " + rest;
    if k == "" {
      assert s[0] == ':' && s[1] == ' ';
    } else {
      assert s[1..] == k[1..] + ": " + rest;
      SeparatorAfter(k[1..], rest);
      assert |k| >= 2 ==> s[1] == k[1];
      assert |k| == 1 ==> s[1] == ':';
    }
  }

  /** The continuation lines of a value as they are printed. */
  function Printed(cs: seq<string>): string {
    if cs == [] then "" else cs[0] + "\n" + Printed(cs[1..])
  }

  function Continued(value: string, cs: seq<string>): string
    decreases |cs|
  {
    if cs == [] then value else Continued(value + "\n" + cs[0], cs[1..])
  }

  lemma {:induction false} JoinedLines(parts: seq<string>)
    requires parts != []
    ensures Join(parts, '\n') + "\n" == parts[0] + "\n" + Printed(parts[1..])
    ensures Join(parts, '\n') == Continued(parts[0], parts[1..])
  {
    if |parts| > 1 {
      JoinedLines(parts[1..]);
      ContinuedPrefix(parts[0] + "\n", parts[1], parts[2..]);
      assert parts[1..][1..] == parts[2..] && parts[1..][0] == parts[1];
      assert Join(parts, '\n') == parts[0] + "\n" + Join(parts[1..], '\n');
      assert Join(parts, '\n') + "\n" == parts[0] + "\n" + (Join(parts[1..], '\n') + "\n");
    }
  }

  lemma {:induction false} ContinuedPrefix(a: string, b: string, cs: seq<string>)
    ensures Continued(a + b, cs) == a + Continued(b, cs)
    decreases |cs|
  {
    if cs != [] {
      assert a + b + "\n" + cs[0] == a + (b + "\n" + cs[0]);
      ContinuedPrefix(a, b + "\n" + cs[0], cs[1..]);
    }
  }

  lemma {:induction false} ReadContinuation(r: Record, cs: seq<string>, rest: string)
    requires forall i :: 0 <= i < |cs| ==> GoodContinuation(cs[i]) && '\n' !in cs[i]
    ensures ReadRecord(r, Lines(Printed(cs) + rest)) == ReadRecord(r.(value := Continued(r.value, cs)), Lines(rest))
    decreases |cs|
  {
    hide Lines, RStrip, ReadRecord;
    if cs == [] {
      assert Printed(cs) + rest == rest;
    } else {
      var more := Printed(cs[1..]) + rest;
      assert Printed(cs) + rest == cs[0] + "\n" + more;
      FirstLine(cs[0], more);
      RStripNewline(cs[0]);
      VisibleEnd(cs[0]);
      var r' := r.(value := r.value + "\n" + cs[0]);
      ReadOneLine(r, cs[0] + "\n", Lines(more));
      ReadContinuation(r', cs[1..], rest);
    }
  }

  lemma {:induction false} VisibleEnd(s: string)
    requires s != "" && !IsSpace(s[|s| - 1])
    ensures RStrip(s) == s
  {
  }

  lemma {:induction false} ReadOneLine(r: Record, line: string, lines: seq<string>)
    requires !EndsRecord(line) && ReadLine(r, line).Some?
    ensures ReadRecord(r, [line] + lines) == ReadRecord(ReadLine(r, line).value, lines)
  {
    assert ([line] + lines)[1..] == lines;
  }

  lemma {:induction false} ReadAttribute(r: Record, k: string, v: string, rest: string)
    requires GoodName(k) && GoodValue(v, true)
    ensures ReadRecord(r, Lines(k + ": " + v + "\n" + rest)) == ReadRecord(Read(r, k, v), Lines(rest))
  {
    hide Lines, RStrip, ReadRecord, FindSeparator, Store, Split, Join, Printed, Continued;
    var parts := Split(v, '\n');
    SplitPieces(v, '\n');
    JoinedLines(parts);
    var first, more := k + ": " + parts[0], Printed(parts[1..]) + rest;
    assert k + ": " + v + "\n" + rest == k + ": " + (v + "\n") + rest;
    assert k + ": " + (parts[0] + "\n" + Printed(parts[1..])) + rest == first + "\n" + more;
    FirstLine(first, more);
    FirstAttributeLine(r, k, parts[0]);
    ReadOneLine(r, first + "\n", Lines(more));
    ReadContinuation(Read(r, k, parts[0]), parts[1..], rest);
  }

  lemma {:induction false} FirstAttributeLine(r: Record, k: string, f: string)
    requires GoodName(k) && RStrip(f) == f
    ensures ReadLine(r, k + ": " + f + "\n") == Some(Read(r, k, f))
    ensures !EndsRecord(k + ": " + f + "\n") && StartsRecord(k + ": " + f + "\n")
  {
    hide Store, RStrip;
    var line := k + ": " + f + "\n";
    assert line == k + ": " + (f + "\n");
    SeparatorAfter(k, f + "\n");
    assert line[..|k|] == k && line[|k| + 2..] == f + "\n";
    RStripNewline(f);
  }

  lemma {:induction false} ReadAttributes(r: Record, d: Dict, rest: string)
    requires GoodAttributes(d, true)
    ensures ReadRecord(r, Lines(PrintAttributes(d) + "\n" + rest)) == Some((Finish(ReadDict(r, d)), Lines(rest)))
    decreases |d|
  {
    hide Lines, Finish, GoodName, GoodValue, Read, ReadRecord, REQUIRE;
    if d == [] {
      assert PrintAttributes(d) + "\n" + rest == "" + "\n" + rest;
      FirstLine("", rest);
      EndOfRecord(r, Lines(rest));
    } else {
      var more := PrintAttributes(d[1..]) + "\n" + rest;
      if d[0].1.None? {
        assert PrintAttributes(d) + "\n" + rest == more;
        ReadAttributes(r, d[1..], rest);
      } else {
        assert PrintAttributes(d) + "\n" + rest == d[0].0 + ": " + d[0].1.value + "\n" + more;
        ReadAttribute(r, d[0].0, d[0].1.value, more);
        ReadAttributes(Read(r, d[0].0, d[0].1.value), d[1..], rest);
      }
    }
  }

  lemma {:induction false} EndOfRecord(r: Record, lines: seq<string>)
    ensures ReadRecord(r, ["" + "\n"] + lines) == Some((Finish(r), lines))
  {
    assert (["" + "\n"] + lines)[1..] == lines;
  }

  // ----- Published attributes -----

  lemma {:induction false} PublishedKeeps(d: Dict, i: nat)
    requires i < |Published(d)|
    ensures exists j :: i <= j < |d| && Published(d)[i] == d[j]
  {
    if Excluded(d[0].0) {
      PublishedKeeps(d[1..], i);
      var j :| i <= j < |d[1..]| && Published(d)[i] == d[1..][j];
      assert d[j + 1] == d[1..][j];
    } else if i > 0 {
      PublishedKeeps(d[1..], i - 1);
      var j :| i - 1 <= j < |d[1..]| && Published(d)[i] == d[1..][j];
      assert d[j + 1] == d[1..][j];
    }
  }

  lemma {:induction false} PublishedUnique(d: Dict)
    requires Unique(d)
    ensures Unique(Published(d))
  {
    if d != [] {
      assert Unique(d[1..]);
      PublishedUnique(d[1..]);
      var rest := Published(d[1..]);
      forall i | 0 <= i < |rest| ensures rest[i].0 != d[0].0 {
        PublishedKeeps(d[1..], i);
      }
    }
  }

  lemma {:induction false} PublishedNames(d: Dict, i: nat)
    requires i < |Published(d)|
    ensures Published(d)[i].0 != "Source" && Published(d)[i].0 != "Maintainer"
  {
    if Excluded(d[0].0) {
      PublishedNames(d[1..], i);
    } else if i > 0 {
      PublishedNames(d[1..], i - 1);
    }
  }

  lemma {:induction false} PublishedStays(d: Dict, a: (string, Option<string>))
    requires a in d && a.0 != "Source" && a.0 != "Maintainer"
    ensures a in Published(d)
  {
    if d[0] != a {
      assert d == [d[0]] + d[1..];
      PublishedStays(d[1..], a);
    }
  }

  lemma {:induction false} PublishedGood(d: Dict, clean: bool)
    requires GoodAttributes(d, clean)
    ensures GoodAttributes(Published(d), clean)
  {
    hide GoodAttribute, Published;
    PublishedUnique(d);
    forall i | 0 <= i < |Published(d)|
      ensures exists j :: 0 <= j < |d| && Published(d)[i] == d[j]
    {
      PublishedKeeps(d, i);
    }
  }

  lemma {:induction false} PublishedHas(d: Dict, k: string)
    requires !Excluded(k)
    ensures Has(Published(d), k) <==> Has(d, k)
  {
    hide Excluded;
    if d != [] {
      var rest := Published(d[1..]);
      PublishedHas(d[1..], k);
      assert d == [d[0]] + d[1..];
      HasConcat([d[0]], d[1..], k);
      HasConcat([d[0]], rest, k);
      OnlyOne(d[0].0, d[0].1, k);
      assert [d[0]] == [(d[0].0, d[0].1)];
    }
  }

  lemma {:induction false} PublishedPlaced(d: Dict, clean: bool)
    requires Placed(d, clean)
    ensures Placed(Published(d), clean)
  {
    Names();
    hide VERSION, REQUIRE, Excluded;
    var rest := Published(d[1..]);
    assert ([d[0]] + rest)[1..] == rest;
    if d[0].0 == VERSION {
      assert d[1..][0] == d[1];
    } else if d[0].0 == REQUIRE {
      PublishedHas(d[1..], VERSION);
    } else {
      PublishedPlaced(d[1..], clean);
    }
  }

  lemma {:induction false} GoodIsNamed(b: Dict, clean: bool)
    requires GoodAttributes(b, clean)
    ensures Named(b)
  {
    hide REQUIRE, FindSeparator;
    forall i | 0 <= i < |b| ensures b[i].0 != "" && (b[i].1.None? ==> b[i].0 == REQUIRE) {
      assert GoodAttribute(b[i], clean);
    }
  }

  lemma {:induction false} GoodIsUnique(b: Dict, clean: bool)
    requires GoodAttributes(b, clean)
    ensures Unique(b)
  {
  }

  /** Without blank lines a value is as good as from a clean index. */
  lemma {:induction false} NoBlankIsClean(b: Dict)
    requires GoodAttributes(b, false)
    ensures NoBlankLines(b) <==> GoodAttributes(b, true)
  {
    hide REQUIRE, Split, GoodName;
    if GoodAttributes(b, true) {
      forall i | 0 <= i < |b| && b[i].1.Some? ensures !BlankLineIn(b[i].1.value) {
        assert GoodAttribute(b[i], true);
      }
    }
    if NoBlankLines(b) {
      forall i | 0 <= i < |b| ensures GoodAttribute(b[i], true) {
        assert GoodAttribute(b[i], false);
      }
    }
  }

  lemma {:induction false} CleanIsGood(b: Dict)
    requires GoodAttributes(b, true)
    ensures GoodAttributes(b, false)
  {
    hide REQUIRE, Split, GoodName, GoodContinuation, RStrip;
    forall i | 0 <= i < |b| ensures GoodAttribute(b[i], false) { assert GoodAttribute(b[i], true); }
  }

  lemma {:induction false} ReadsBack(b: Dict, rest: string)
    requires GoodAttributes(b, true)
    ensures ReadRecord(START, Lines(PrintAttributes(b) + "\n" + rest)) == Some((Reread(b), Lines(rest)))
  {
    hide Lines, ReadRecord, PrintAttributes, GoodAttributes, ReadDict, Finish;
    ReadAttributes(START, b, rest);
  }

  // ----- A blank line ends the record -----

  lemma {:induction false} PrintedConcat(a: seq<string>, c: seq<string>)
    ensures Printed(a + c) == Printed(a) + Printed(c)
  {
    if a == [] {
      assert a + c == c;
    } else {
      assert (a + c)[1..] == a[1..] + c;
      PrintedConcat(a[1..], c);
    }
  }

  /** The lines of a value before its first blank one, and the text that follows that. */
  lemma {:induction false} CutValue(v: string) returns (pre: string, post: string)
    requires GoodValue(v, false) && BlankLineIn(v)
    ensures v + "\n" == pre + "\n" + ("\n" + post) && GoodValue(pre, true)
  {
    hide Split, Join, RStrip, Printed;
    var parts := Split(v, '\n');
    SplitPieces(v, '\n');
    var m := FirstBlank(parts);
    var a, c := parts[..m], parts[m + 1..];
    pre, post := Join(a, '\n'), Printed(c);
    SplitJoin(a, '\n');
    JoinedLines(parts);
    JoinedLines(a);
    CutPrinted(parts, m);
    assert parts[0] + "\n" + (Printed(a[1..]) + "\n" + post) == parts[0] + "\n" + Printed(a[1..]) + ("\n" + post);
  }

  lemma {:induction false} FirstBlank(parts: seq<string>) returns (m: nat)
    requires exists i :: 0 < i < |parts| && parts[i] == ""
    ensures 0 < m < |parts| && parts[m] == "" && forall i :: 0 < i < m ==> parts[i] != ""
  {
    m := 1;
    while parts[m] != ""
      invariant 0 < m < |parts| && forall i :: 0 < i < m ==> parts[i] != ""
      invariant exists i :: m <= i < |parts| && parts[i] == ""
      decreases |parts| - m
    {
      m := m + 1;
    }
  }

  lemma {:induction false} CutPrinted(parts: seq<string>, m: nat)
    requires 0 < m < |parts| && parts[m] == ""
    ensures Printed(parts[1..]) == Printed(parts[..m][1..]) + "\n" + Printed(parts[m + 1..])
  {
    hide Printed;
    var a, c := parts[..m][1..], parts[m + 1..];
    assert parts[1..] == a + ([parts[m]] + c);
    PrintedConcat(a, [parts[m]] + c);
    PrintedFirst("", c);
    assert Printed(a) + ("\n" + Printed(c)) == Printed(a) + "\n" + Printed(c);
  }

  lemma {:induction false} PrintedFirst(line: string, c: seq<string>)
    ensures Printed([line] + c) == line + "\n" + Printed(c)
  {
    assert ([line] + c)[1..] == c;
  }

  lemma {:induction false} PrintConcat(a: Dict, c: Dict)
    ensures PrintAttributes(a + c) == PrintAttributes(a) + PrintAttributes(c)
  {
    if a == [] {
      assert a + c == c;
    } else {
      assert (a + c)[0] == a[0] && (a + c)[1..] == a[1..] + c;
      PrintConcat(a[1..], c);
    }
  }

  lemma {:induction false} PrintOne(k: string, v: string)
    ensures PrintAttributes([(k, Some(v))]) == k + ": " + v + "\n"
  {
    var d := [(k, Some(v))];
    assert d[1..] == [];
    assert PrintAttributes(d) == k + ": " + v + "\n" + PrintAttributes([]);
  }

  /** The first attribute with a blank line in its value. */
  lemma {:induction false} FirstBlankAttribute(b: Dict) returns (j: nat)
    requires !NoBlankLines(b)
    ensures j < |b| && b[j].1.Some? && BlankLineIn(b[j].1.value) && NoBlankLines(b[..j])
  {
    hide BlankLineIn;
    j := 0;
    while !(b[j].1.Some? && BlankLineIn(b[j].1.value))
      invariant j < |b| && NoBlankLines(b[..j]) && !NoBlankLines(b)
      decreases |b| - j
    {
      assert forall i :: 0 <= i < |b[..j]| ==> b[..j][i] == b[i];
      j := j + 1;
      assert forall i :: 0 <= i < |b[..j]| ==> b[..j][i] == b[i];
    }
  }

  /** A blank line ends the record early, with a shorter value. */
  lemma {:induction false} BlankLineCuts(b: Dict, rest: string)
    requires GoodAttributes(b, false) && !NoBlankLines(b)
    ensures var r := ReadRecord(START, Lines(PrintAttributes(b) + "\n" + rest)); r.Some? && r.value.0 != b
  {
    hide Lines, ReadRecord, PrintAttributes, BlankLineIn, GoodValue, NoBlankLines, Lookup, Reread;
    var j := FirstBlankAttribute(b);
    var k, v, a := b[j].0, b[j].1.value, b[..j];
    assert GoodAttribute(b[j], false);
    var pre, post := CutValue(v);
    var cut := a + [(k, Some(pre))];
    CutIsGood(b, j, pre);
    CutText(b, j, pre, post, rest);
    ReadsBack(cut, post + PrintAttributes(b[j + 1..]) + "\n" + rest);
    GoodIsNamed(b, false);
    assert forall i :: 0 <= i < |a| ==> a[i] == b[i];
    RereadLast(a, k, pre);
    LookupAt(b, j);
    assert |v| + 1 == |pre| + 2 + |post|;
  }

  lemma {:induction false} CutIsGood(b: Dict, j: nat, pre: string)
    requires GoodAttributes(b, false) && j < |b| && NoBlankLines(b[..j]) && GoodValue(pre, true)
    requires b[j].1.Some?
    ensures GoodAttributes(b[..j] + [(b[j].0, Some(pre))], true)
  {
    hide GoodValue, GoodName, NoBlankLines, REQUIRE;
    var a, cut := b[..j], b[..j] + [(b[j].0, Some(pre))];
    assert forall i :: 0 <= i < |a| ==> a[i] == b[i];
    assert GoodAttributes(a, false);
    NoBlankIsClean(a);
    assert GoodAttribute(b[j], false);
    forall i | 0 <= i < |cut| ensures GoodAttribute(cut[i], true) && cut[i].0 == b[i].0 {
      if i < j { assert cut[i] == a[i]; }
    }
  }

  lemma {:induction false} CutText(b: Dict, j: nat, pre: string, post: string, rest: string)
    requires j < |b| && b[j].1.Some? && b[j].1.value + "\n" == pre + "\n" + ("\n" + post)
    ensures PrintAttributes(b) + "\n" + rest
            == PrintAttributes(b[..j] + [(b[j].0, Some(pre))]) + "\n"
               + (post + PrintAttributes(b[j + 1..]) + "\n" + rest)
  {
    hide PrintAttributes;
    var a, k, v, c := PrintAttributes(b[..j]), b[j].0, b[j].1.value, PrintAttributes(b[j + 1..]);
    assert b[j] == (k, Some(v)) && b == b[..j] + ([(k, Some(v))] + b[j + 1..]);
    PrintConcat(b[..j], [(k, Some(v))] + b[j + 1..]);
    PrintConcat([(k, Some(v))], b[j + 1..]);
    PrintConcat(b[..j], [(k, Some(pre))]);
    PrintOne(k, v);
    PrintOne(k, pre);
    CutRegroup(a, k, v, pre, post, c, rest);
  }

  lemma {:induction false} CutRegroup(a: string, k: string, v: string, pre: string, post: string, c: string,
                                      rest: string)
    requires v + "\n" == pre + "\n" + ("\n" + post)
    ensures a + (k + ": " + v + "\n" + c) + "\n" + rest
            == a + (k + ": " + pre + "\n") + "\n" + (post + c + "\n" + rest)
  {
    var head := a + (k + ": ");
    assert a + (k + ": " + v + "\n" + c) + "\n" + rest == head + (v + "\n") + c + "\n" + rest;
    assert head + (pre + "\n" + ("\n" + post)) + c + "\n" + rest
           == a + (k + ": " + pre + "\n") + "\n" + (post + c + "\n" + rest);
  }

  // ----- One package -----

  /**
   The printed attributes of a package are read back as they are exactly when they are kept;
   otherwise some other record is read.
   */
  lemma {:induction false} PackageRoundTrip(p: Dict, rest: string)
    requires GoodAttributes(p, false) && Placed(p, false)
    ensures var b := Published(p);
            var r := ReadRecord(START, Lines(PrintAttributes(b) + "\n" + rest));
            && r.Some?
            && (r.value.0 == b <==> Kept(b))
            && (Kept(b) ==> r.value.1 == Lines(rest))
  {
    hide Lines, ReadRecord, Reread, GoodAttributes, Placed, NoBlankLines, RequireKept, Unique, Named, Published;
    hide PrintAttributes;
    var b := Published(p);
    PublishedGood(p, false);
    PublishedPlaced(p, false);
    if NoBlankLines(b) {
      NoBlankIsClean(b);
      ReadsBack(b, rest);
      GoodIsNamed(b, true);
      GoodIsUnique(b, true);
      RereadExactly(b);
    } else {
      BlankLineCuts(b, rest);
    }
  }

  // ----- The whole index -----

  function PublishedAll(ps: seq<Dict>): seq<Dict> {
    if ps == [] then [] else [Published(ps[0])] + PublishedAll(ps[1..])
  }

  /** The text of attributes starts a record, unless none is set. */
  lemma {:induction false} AttributesStart(b: Dict, rest: string)
    requires GoodAttributes(b, false) && exists i :: 0 <= i < |b| && b[i].1.Some?
    ensures var lines := Lines(PrintAttributes(b) + "\n" + rest);
            lines != [] && StartsRecord(lines[0])
  {
    hide REQUIRE, Lines, RStrip, Split, Join, Printed, GoodContinuation, FindSeparator;
    assert GoodAttribute(b[0], false);
    if b[0].1.None? {
      var i :| 0 <= i < |b| && b[i].1.Some?;
      assert b[1..][i - 1] == b[i];
      assert forall j :: 0 <= j < |b[1..]| ==> b[1..][j] == b[j + 1];
      AttributesStart(b[1..], rest);
      assert PrintAttributes(b) == PrintAttributes(b[1..]);
    } else {
      var k, v := b[0].0, b[0].1.value;
      var parts := Split(v, '\n');
      SplitPieces(v, '\n');
      JoinedLines(parts);
      var tail := PrintAttributes(b[1..]) + "\n" + rest;
      FirstPrinted(b, rest);
      Regrouped(k, parts[0], Printed(parts[1..]), tail);
      FirstLine(k + ": " + parts[0], Printed(parts[1..]) + tail);
      FirstAttributeLine(START, k, parts[0]);
    }
  }

  lemma {:induction false} PackageStarts(p: Dict, rest: string)
    requires GoodAttributes(p, false) && Has(p, FILENAME)
    ensures var lines := Lines(PrintAttributes(Published(p)) + "\n" + rest);
            lines != [] && StartsRecord(lines[0])
  {
    Names();
    hide REQUIRE, FILENAME, Lines, Published, PrintAttributes, GoodName, GoodValue;
    var b := Published(p);
    PublishedGood(p, false);
    PublishedHas(p, FILENAME);
    var i :| 0 <= i < |b| && b[i].0 == FILENAME;
    assert GoodAttribute(b[i], false);
    AttributesStart(b, rest);
  }

  lemma {:induction false} FirstPrinted(b: Dict, rest: string)
    requires b != [] && b[0].1.Some?
    ensures PrintAttributes(b) + "\n" + rest
            == b[0].0 + ": " + (b[0].1.value + "\n") + (PrintAttributes(b[1..]) + "\n" + rest)
  {
    var line, more := b[0].0 + ": " + b[0].1.value + "\n", PrintAttributes(b[1..]);
    assert PrintAttributes(b) == line + more;
    assert line + more + "\n" + rest == line + (more + "\n" + rest);
    assert line == b[0].0 + ": " + (b[0].1.value + "\n");
  }

  lemma {:induction false} Regrouped(k: string, first: string, lines: string, tail: string)
    ensures k + ": " + (first + "\n" + lines) + tail == k + ": " + first + "\n" + (lines + tail)
  {
  }

  lemma {:induction false} NoLines()
    ensures Lines("") == []
  {
  }

  ghost predicate AllKept(ps: seq<Dict>) {
    forall i :: 0 <= i < |ps| ==> Kept(Published(ps[i]))
  }

  lemma {:induction false} AllKeptFirst(ps: seq<Dict>)
    requires ps != []
    ensures AllKept(ps) <==> Kept(Published(ps[0])) && AllKept(ps[1..])
  {
    hide Kept, Published;
    assert forall i :: 0 <= i < |ps[1..]| ==> ps[1..][i] == ps[i + 1];
    if Kept(Published(ps[0])) && AllKept(ps[1..]) {
      forall i | 0 <= i < |ps| ensures Kept(Published(ps[i])) {
        if i > 0 { assert ps[1..][i - 1] == ps[i]; }
      }
    }
  }

  lemma {:induction false} SameLists(p: Dict, ps: seq<Dict>, q: Dict, qs: seq<Dict>)
    ensures [p] + ps == [q] + qs <==> p == q && ps == qs
  {
    assert ([p] + ps)[0] == p && ([p] + ps)[1..] == ps;
    assert ([q] + qs)[0] == q && ([q] + qs)[1..] == qs;
  }

  lemma {:induction false} PrintedRoundTrip(ps: seq<Dict>)
    requires forall i :: 0 <= i < |ps| ==> WellFormed(ps[i])
    ensures ReadAll(Lines(PrintIndex(ps))) == Some(PublishedAll(ps)) <==> AllKept(ps)
  {
    hide Lines, ReadRecord, PrintAttributes, Published, GoodAttributes, Placed, Has, NoReturns, Kept, StartsRecord;
    if ps == [] {
      NoLines();
    } else {
      var rest, b := PrintIndex(ps[1..]), Published(ps[0]);
      var lines := Lines(PrintAttributes(b) + "\n" + rest);
      PackageStarts(ps[0], rest);
      PackageRoundTrip(ps[0], rest);
      var r := ReadRecord(START, lines).value;
      var more := ReadAll(r.1);
      assert ReadAll(lines) == match more case None => None case Some(qs) => Some([r.0] + qs);
      var tail := ps[1..];
      assert forall i :: 0 <= i < |tail| ==> tail[i] == ps[i + 1];
      PrintedRoundTrip(tail);
      assert AllKept(ps) <==> Kept(b) && AllKept(tail) by { AllKeptFirst(ps); }
      if more.Some? {
        SameLists(r.0, more.value, b, PublishedAll(tail));
      }
    }
  }

  lemma {:induction false} PublishedPlain(d: Dict)
    requires NoReturns(d)
    ensures NoReturns(Published(d))
  {
    if d != [] {
      assert forall i :: 0 <= i < |d[1..]| ==> d[1..][i] == d[i + 1];
      PublishedPlain(d[1..]);
    }
  }

  lemma {:induction false} AttributesPlain(d: Dict)
    requires NoReturns(d)
    ensures '\r' !in PrintAttributes(d)
  {
    if d != [] {
      assert forall i :: 0 <= i < |d[1..]| ==> d[1..][i] == d[i + 1];
      AttributesPlain(d[1..]);
    }
  }

  lemma {:induction false} PrintedPlain(ps: seq<Dict>)
    requires forall i :: 0 <= i < |ps| ==> NoReturns(ps[i])
    ensures '\r' !in PrintIndex(ps)
  {
    hide NoReturns, PrintAttributes, Published;
    if ps != [] {
      PublishedPlain(ps[0]);
      AttributesPlain(Published(ps[0]));
      PrintedPlain(ps[1..]);
    }
  }

  lemma {:induction false} WellFormedPlain(p: Dict)
    requires WellFormed(p)
    ensures NoReturns(p)
  {
  }

  lemma {:induction false} SameKept(ps: seq<Dict>, qs: seq<Dict>)
    requires multiset(ps) == multiset(qs)
    ensures AllKept(ps) <==> AllKept(qs)
  {
    hide Kept, Published;
    forall i | 0 <= i < |ps| ensures ps[i] in qs {
      assert ps[i] in multiset(ps);
      assert ps[i] in multiset(qs);
    }
    forall i | 0 <= i < |qs| ensures qs[i] in ps {
      assert qs[i] in multiset(qs);
      assert qs[i] in multiset(ps);
    }
  }

  /**
   For any packages as the parser makes them, parsing the index printed in file name order gives these
   packages in that order, their attributes in order, without Source and Maintainer and with an unset
   Require where it was, exactly when all published attributes are kept. Packages that share a file
   name keep the order they had.
   */
  lemma {:induction false} IndexRoundTrip(ps: seq<Dict>)
    requires forall i :: 0 <= i < |ps| ==> WellFormed(ps[i])
    ensures var sorted := Sort(FilenameOf, ps);
            && (ReadIndex(PrintIndex(sorted)) == Some(PublishedAll(sorted)) <==> AllKept(ps))
            && multiset(sorted) == multiset(ps)
            && Ordered(FilenameOf, sorted)
            && forall name :: WithKey(FilenameOf, name, sorted) == WithKey(FilenameOf, name, ps)
  {
    hide WellFormed, Lines, ReadAll, PrintIndex, Kept, Published, PublishedAll;
    var sorted := Sort(FilenameOf, ps);
    SortOrders(FilenameOf, ps);
    SortKeeps(FilenameOf, ps);
    forall name ensures WithKey(FilenameOf, name, sorted) == WithKey(FilenameOf, name, ps) {
      SortStable(FilenameOf, name, ps);
    }
    forall i | 0 <= i < |sorted| ensures WellFormed(sorted[i]) {
      SameElements(FilenameOf, ps, sorted[i]);
    }
    PrintedRoundTrip(sorted);
    SameKept(ps, sorted);
    forall i | 0 <= i < |sorted| ensures NoReturns(sorted[i]) {
      WellFormedPlain(sorted[i]);
    }
    PrintedPlain(sorted);
    UniversalPlain(PrintIndex(sorted));
  }

  /** The file name that packages are sorted by. */
  lemma {:induction false} FilenameFound(p: Dict, i: nat, f: string)
    requires Unique(p) && i < |p| && p[i] == ("Filename", Some(f))
    ensures FilenameOf(p) == f
  {
    LookupAt(p, i);
  }

  // ----- Parsing, printing, parsing -----

  /**
   Parsing any index, printing the packages in file name order and parsing again gives the published
   part of the same packages in that order exactly when these are kept: no value has a blank line, and
   a Require before Version is set, and empty only if Version comes last.
   */
  lemma {:induction false} ParsePrintParse(text: string)
    requires ReadIndex(text).Some?
    requires forall i :: 0 <= i < |ReadIndex(text).value| ==> Has(ReadIndex(text).value[i], FILENAME)
    ensures var ps := ReadIndex(text).value;
            var sorted := Sort(FilenameOf, ps);
            ReadIndex(PrintIndex(sorted)) == Some(PublishedAll(sorted)) <==> AllKept(ps)
  {
    hide GoodAttributes, Placed, NoReturns, ReadAll, Lines, PrintIndex, FILENAME, Universal, Kept;
    var lines := Lines(Universal(text));
    UniversalPlain(text);
    LinesAreLines(Universal(text));
    LinesPlain(Universal(text));
    ReadAllGood(lines, false);
    ReadAllPlain(lines);
    IndexRoundTrip(ReadIndex(text).value);
  }

  /** Packages of an index without blank continuation lines and empty Require lines are kept. */
  lemma {:induction false} CleanIndexKept(text: string)
    requires forall i :: 0 <= i < |Lines(Universal(text))| ==> Clean(Lines(Universal(text))[i])
    requires ReadIndex(text).Some?
    ensures AllKept(ReadIndex(text).value)
  {
    hide GoodAttributes, Placed, Clean, ReadAll, Lines, Universal, Kept, Published;
    LinesAreLines(Universal(text));
    ReadAllGood(Lines(Universal(text)), true);
    forall i | 0 <= i < |ReadIndex(text).value| ensures Kept(Published(ReadIndex(text).value[i])) {
      CleanKept(ReadIndex(text).value[i]);
    }
  }

  lemma {:induction false} CleanKept(p: Dict)
    requires GoodAttributes(p, true) && Placed(p, true)
    ensures Kept(Published(p))
  {
    hide GoodAttributes, Placed, NoBlankLines, Published, RequireKept, Unique, Named;
    var b := Published(p);
    PublishedGood(p, true);
    PublishedPlaced(p, true);
    CleanIsGood(b);
    NoBlankIsClean(b);
    GoodIsUnique(b, true);
    CleanRequireKept(b);
  }

  lemma {:induction false} CleanRequireKept(b: Dict)
    requires Placed(b, true) && Unique(b)
    ensures RequireKept(b)
  {
    Names();
    hide VERSION, REQUIRE;
    var rest := b[1..];
    assert forall i :: 0 <= i < |rest| ==> rest[i] == b[i + 1];
    if b[0].0 != VERSION && b[0].0 != REQUIRE {
      CleanRequireKept(rest);
      forall i, j | 0 <= i < j < |b| && b[i].0 == REQUIRE && b[j].0 == VERSION
        ensures b[i].1.Some? && (b[i].1.value != "" || j == |b| - 1)
      {
        assert rest[i - 1] == b[i] && rest[j - 1] == b[j];
      }
    }
  }

  // ----- Setting Require -----

  /** The setter: a package whose Require is set is one that the parser can make ... */
  lemma {:induction false} SetRequireKeeps(p: Dict, v: string)
    requires WellFormed(p) && GoodValue(v, false) && '\r' !in v
    ensures WellFormed(Put(p, REQUIRE, Some(v)))
  {
    Names();
    assert '\r' !in REQUIRE;
    hide GoodAttributes, GoodName, GoodValue, NoReturns, REQUIRE, Placed, Settled, FILENAME;
    PutPlain(p, REQUIRE, Some(v));
    PutRequire(p, v, false);
    SettledHasRequire(Put(p, REQUIRE, Some(v)), false);
    RequireIsGood();
    PutGood(p, REQUIRE, Some(v), false);
    PutKeepsKeys(p, REQUIRE, Some(v), FILENAME);
  }

  /** ... and that is kept if the package had no blank lines and the value is neither empty nor has one. */
  lemma {:induction false} SetRequireKept(p: Dict, v: string)
    requires WellFormed(p) && NoBlankLines(Published(p)) && v != "" && !BlankLineIn(v)
    requires GoodValue(v, false) && '\r' !in v
    ensures Kept(Published(Put(p, REQUIRE, Some(v))))
  {
    hide GoodAttributes, GoodValue, NoReturns, REQUIRE, VERSION, FILENAME, Placed, BlankLineIn, Put, Published, Has;
    var d := Put(p, REQUIRE, Some(v));
    SetRequireKeeps(p, v);
    GoodIsUnique(d, false);
    forall i | 0 <= i < |Published(d)|
      ensures Published(d)[i].0 == REQUIRE ==> Published(d)[i].1 == Some(v)
      ensures Published(d)[i].1.Some? ==> !BlankLineIn(Published(d)[i].1.value)
    {
      PublishedKeeps(d, i);
      var j :| i <= j < |d| && Published(d)[i] == d[j];
      LookupAt(d, j);
      LookupPut(p, REQUIRE, Some(v), REQUIRE);
      PublishedNames(d, i);
      PutElement(p, REQUIRE, Some(v), j);
      if d[j] != (REQUIRE, Some(v)) { PublishedStays(p, d[j]); }
    }
  }

  // ----- An index that is not read back -----

  lemma {:induction false} ReadOnePackage(b: Dict)
    requires GoodAttributes(b, true) && NoReturns(b) && b != [] && b[0].1.Some?
    ensures ReadIndex(PrintAttributes(b) + "\n") == Some([Reread(b)])
  {
    hide Lines, ReadRecord, PrintAttributes, GoodAttributes, NoReturns, Reread, StartsRecord;
    var text := PrintAttributes(b) + "\n";
    AttributesPlain(b);
    UniversalPlain(text);
    assert text + "" == text;
    CleanIsGood(b);
    ReadsBack(b, "");
    AttributesStart(b, "");
    NoLines();
    var none: seq<string> := [];
    assert ReadAll(none) == Some([]) && [Reread(b)] + [] == [Reread(b)];
  }

  lemma {:induction false} GoodWord(s: string)
    requires s != "" && forall i :: 0 <= i < |s| ==> !IsSpace(s[i]) && s[i] != ':'
    ensures GoodName(s) && GoodValue(s, true) && '\r' !in s
  {
    hide FindSeparator, GoodValue, Split;
    NoColon(s);
    assert '\n' !in s;
    VisibleEnd(s);
    OneLineValue(s, true);
  }

  /** An empty Require before Version, and something behind it. */
  function Lossy(q: Option<string>): Dict {
    [(REQUIRE, q), (VERSION, Some("1")), (FILENAME, Some("f"))]
  }

  lemma {:induction false} LossyShape(q: Option<string>)
    ensures Lossy(q) == Whole(RequireFirst([], q, [], "1", [(FILENAME, Some("f"))]))
    ensures ShapeOk(RequireFirst([], q, [], "1", [(FILENAME, Some("f"))])) && Unique(Lossy(q))
    ensures StoredForm([], Some(""), [], "1", [(FILENAME, Some("f"))]) == Lossy(None)
  {
    Names();
    hide VERSION, REQUIRE, FILENAME;
  }

  lemma {:induction false} NamesGood()
    ensures GoodName(VERSION) && GoodName(FILENAME) && GoodName(REQUIRE)
    ensures '\r' !in VERSION && '\r' !in FILENAME && '\r' !in REQUIRE
  {
    hide GoodName, GoodValue;
    GoodWord(VERSION);
    GoodWord(FILENAME);
    GoodWord(REQUIRE);
  }

  lemma {:induction false} LossyValuesGood()
    ensures GoodValue("", true) && GoodValue("1", true) && GoodValue("f", true)
  {
    hide GoodName, GoodValue;
    GoodWord("1");
    GoodWord("f");
    OneLineValue("", true);
  }

  lemma {:induction false} LossyGood()
    ensures GoodAttributes(Lossy(Some("")), true) && NoReturns(Lossy(Some("")))
  {
    hide VERSION, REQUIRE, FILENAME, GoodName, GoodValue, Unique;
    NamesGood();
    LossyValuesGood();
    LossyShape(Some(""));
  }

  lemma {:induction false} LossyNotKept()
    ensures Published(Lossy(None)) == Lossy(None) && Has(Lossy(None), FILENAME) && !AllKept([Lossy(None)])
  {
    Names();
    hide VERSION, REQUIRE, FILENAME, Excluded;
    var b := Lossy(None);
    assert b[2].0 == FILENAME;
    var b1, b2 := b[1..], b[1..][1..];
    assert b1 == [b[1], b[2]] && b2 == [b[2]] && b2[1..] == [];
    assert Published(b2) == [b[2]] + Published(b2[1..]);
    assert Published(b1) == [b[1]] + Published(b2);
    assert Published(b) == b;
    assert !RequireKept(b) by { assert b[0].0 == REQUIRE && b[1].0 == VERSION; }
    assert [b][0] == b;
  }

  /** There is an index on which the round trip fails: an empty Require is lost in front of Version. */
  lemma {:induction false} LossyIndexExists() returns (text: string)
    ensures ReadIndex(text) == Some([Lossy(None)])
    ensures ReadIndex(PrintIndex([Lossy(None)])) != Some(PublishedAll([Lossy(None)]))
  {
    hide Lossy, ReadIndex, PrintIndex, PublishedAll, Reread, GoodAttributes, NoReturns, FILENAME, AllKept;
    var b := Lossy(Some(""));
    text := PrintAttributes(b) + "\n";
    LossyGood();
    LossyFirst();
    ReadOnePackage(b);
    LossyShape(Some(""));
    RereadRequireFirst([], Some(""), [], "1", [(FILENAME, Some("f"))]);
    LossyNotKept();
    SortOne(Lossy(None));
    ParsePrintParse(text);
  }

  lemma {:induction false} LossyFirst()
    ensures Lossy(Some("")) != [] && Lossy(Some(""))[0].1.Some?
  {
  }

  lemma {:induction false} SortOne(p: Dict)
    ensures Sort(FilenameOf, [p]) == [p]
  {
    assert [p][1..] == [];
  }
}

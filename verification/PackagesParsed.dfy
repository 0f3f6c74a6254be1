/**
 What every parsed package is like: the shape of names and values, the place of Require and the
 absence of carriage returns; and what more holds of a clean index.
 */
module PackagesParsed {
  import opened Wrappers
  import opened Text
  import opened Packages
  import opened PackageDicts

  // ----- The place of Require -----

  /** Neither a Version nor a Require yet. */
  ghost predicate Neither(d: Dict) {
    !Has(d, VERSION) && !Has(d, REQUIRE)
  }

  /** The place of Require is settled. */
  predicate Settled(d: Dict, clean: bool) {
    if d == [] then false
    else if d[0].0 == VERSION then |d| >= 2 && d[1].0 == REQUIRE
    else if d[0].0 == REQUIRE then SetFirst(d, clean)
    else Settled(d[1..], clean)
  }

  lemma {:induction false} SettledHasRequire(d: Dict, clean: bool)
    requires Settled(d, clean)
    ensures Has(d, REQUIRE) && Placed(d, clean)
  {
    hide VERSION, REQUIRE;
    if d[0].0 == VERSION {
      assert d[1].0 == REQUIRE;
    } else if d[0].0 == REQUIRE {
    } else {
      SettledHasRequire(d[1..], clean);
      var i :| 0 <= i < |d[1..]| && d[1..][i].0 == REQUIRE;
      assert d[i + 1].0 == REQUIRE;
    }
  }

  lemma {:induction false} NeitherThen(d: Dict, e: Dict, clean: bool)
    requires Neither(d) && e != []
    ensures Settled(e, clean) ==> Settled(d + e, clean)
    ensures Placed(e, clean) ==> Placed(d + e, clean)
  {
    hide VERSION, REQUIRE;
    if d == [] {
      assert d + e == e;
    } else {
      assert d[0].0 != VERSION && d[0].0 != REQUIRE;
      assert Neither(d[1..]);
      NeitherThen(d[1..], e, clean);
      assert (d + e)[0] == d[0] && (d + e)[1..] == d[1..] + e;
    }
  }

  lemma {:induction false} PutOther(d: Dict, k: string, v: Option<string>, clean: bool)
    requires k != VERSION && k != REQUIRE
    ensures Settled(d, clean) ==> Settled(Put(d, k, v), clean)
    ensures Neither(d) ==> Neither(Put(d, k, v))
  {
    hide VERSION, REQUIRE;
    var d' := Put(d, k, v);
    if d != [] && d[0].0 != k {
      PutOther(d[1..], k, v, clean);
      assert d'[1..] == Put(d[1..], k, v);
      if Neither(d) { assert Neither(d[1..]) && Neither(Put(d[1..], k, v)); }
      if Has(d[1..], VERSION) { PutKeepsKeys(d[1..], k, v, VERSION); }
      if Settled(d, clean) && d[0].0 == VERSION { assert d[1..][0] == d[1] && d'[1] == Put(d[1..], k, v)[0]; }
    } else if d != [] {
      assert d'[1..] == d[1..];
      if Neither(d) { assert Neither(d[1..]); }
    }
  }

  /** A Require with a value settles its place. */
  lemma {:induction false} PutRequire(d: Dict, v: string, clean: bool)
    requires clean ==> v != ""
    ensures Settled(d, clean) ==> Settled(Put(d, REQUIRE, Some(v)), clean)
    ensures Placed(d, clean) ==> Settled(Put(d, REQUIRE, Some(v)), clean)
  {
    Names();
    hide VERSION, REQUIRE;
    var d' := Put(d, REQUIRE, Some(v));
    if d != [] && d[0].0 != REQUIRE {
      PutRequire(d[1..], v, clean);
      assert d'[1..] == Put(d[1..], REQUIRE, Some(v));
      if d[0].0 == VERSION && |d| >= 2 && d[1].0 == REQUIRE {
        assert d[1..][0] == d[1] && d'[1] == Put(d[1..], REQUIRE, Some(v))[0];
      }
    }
  }

  lemma {:induction false} PutVersion(d: Dict, v: string, clean: bool)
    requires Settled(d, clean)
    ensures Settled(Put(d, VERSION, Some(v)), clean)
  {
    Names();
    hide VERSION, REQUIRE;
    var d' := Put(d, VERSION, Some(v));
    if d[0].0 == VERSION {
      assert d'[1..] == d[1..] && d'[1] == d[1];
    } else if d[0].0 == REQUIRE {
      assert d'[1..] == Put(d[1..], VERSION, Some(v));
      PutHas(d[1..], VERSION, Some(v));
    } else {
      assert d'[1..] == Put(d[1..], VERSION, Some(v));
      PutVersion(d[1..], v, clean);
    }
  }

  lemma {:induction false} StoreVersionSettled(d: Dict, v: string, clean: bool)
    requires Settled(d, clean)
    ensures Settled(Store(d, VERSION, v), clean)
  {
    Names();
    hide VERSION, REQUIRE;
    var d1, d' := Put(d, VERSION, Some(v)), Store(d, VERSION, v);
    if d[0].0 == VERSION {
      assert d1 == [(VERSION, Some(v))] + d[1..] && d1[1..] == d[1..] && d[1..][0].0 == REQUIRE;
      assert Put(d1, REQUIRE, None) == [d1[0]] + Put(d1[1..], REQUIRE, None);
    } else if d[0].0 == REQUIRE {
      assert d1[0] == d[0] && Lookup(d1, REQUIRE) == d[0].1;
      assert d1[1..] == Put(d[1..], VERSION, Some(v));
      PutHas(d[1..], VERSION, Some(v));
      assert Put(d1, REQUIRE, None)[1..] == d1[1..];
    } else {
      StoreVersionSettled(d[1..], v, clean);
      assert d1 == [d[0]] + Put(d[1..], VERSION, Some(v)) && d1[1..] == Put(d[1..], VERSION, Some(v));
      assert d' == [d[0]] + Store(d[1..], VERSION, v);
      assert d'[1..] == Store(d[1..], VERSION, v);
    }
  }

  lemma {:induction false} StoreKeepsPlace(d: Dict, k: string, v: string, clean: bool)
    requires (Neither(d) || Settled(d, clean)) && (clean && k == REQUIRE ==> v != "")
    ensures Neither(Store(d, k, v)) || Settled(Store(d, k, v), clean)
  {
    Names();
    hide VERSION, REQUIRE, Put, Lookup, Has, Settled, Placed;
    if k == VERSION {
      if Settled(d, clean) {
        StoreVersionSettled(d, v, clean);
      } else {
        StoreVersion(d, v);
        VersionThenRequire(d, v, clean);
      }
    } else {
      PutKeepsPlace(d, k, v, clean);
    }
  }

  lemma {:induction false} PutKeepsPlace(d: Dict, k: string, v: string, clean: bool)
    requires (Neither(d) || Settled(d, clean)) && (clean && k == REQUIRE ==> v != "") && k != VERSION
    ensures var d' := Put(d, k, Some(v)); Neither(d') || Settled(d', clean)
  {
    hide VERSION, REQUIRE, Put, Has, Settled, Placed;
    if k == REQUIRE {
      if Settled(d, clean) {
        PutRequire(d, v, clean);
      } else {
        PutNew(d, REQUIRE, Some(v));
        SettledOne(v, clean);
        NeitherThen(d, [(REQUIRE, Some(v))], clean);
      }
    } else {
      PutOther(d, k, Some(v), clean);
    }
  }

  lemma {:induction false} VersionThenRequire(d: Dict, v: string, clean: bool)
    requires Neither(d)
    ensures Settled(d + [(VERSION, Some(v))] + [(REQUIRE, None)], clean)
  {
    var e := [(VERSION, Some(v))] + [(REQUIRE, None)];
    assert e[0] == (VERSION, Some(v)) && e[1] == (REQUIRE, None);
    assert d + [(VERSION, Some(v))] + [(REQUIRE, None)] == d + e;
    NeitherThen(d, e, clean);
  }

  lemma {:induction false} SettledOne(v: string, clean: bool)
    requires clean ==> v != ""
    ensures Settled([(REQUIRE, Some(v))], clean) && Placed([(REQUIRE, None)], clean)
  {
    Names();
  }

  lemma {:induction false} WithRequirePlaced(d: Dict, clean: bool)
    requires Neither(d) || Settled(d, clean)
    ensures Placed(WithRequire(d), clean)
  {
    hide VERSION, REQUIRE, Put, Settled, Placed;
    if Settled(d, clean) {
      SettledHasRequire(d, clean);
    } else {
      PutNew(d, REQUIRE, None);
      SettledOne("x", clean);
      NeitherThen(d, [(REQUIRE, None)], clean);
    }
  }

  // ----- Names and values -----

  lemma {:induction false} PutGood(d: Dict, k: string, v: Option<string>, clean: bool)
    requires GoodAttributes(d, clean) && GoodAttribute((k, v), clean)
    ensures GoodAttributes(Put(d, k, v), clean)
    ensures forall i :: 0 <= i < |Put(d, k, v)| ==> Put(d, k, v)[i].0 == k || Has(d, Put(d, k, v)[i].0)
  {
    hide GoodAttribute;
    var d' := Put(d, k, v);
    if d != [] && d[0].0 != k {
      var tail := Put(d[1..], k, v);
      assert forall i :: 0 <= i < |d[1..]| ==> d[1..][i] == d[i + 1];
      PutGood(d[1..], k, v, clean);
      forall i | 0 <= i < |tail| ensures tail[i].0 != d[0].0 && (tail[i].0 == k || Has(d, tail[i].0)) {
        if tail[i].0 != k {
          var j :| 0 <= j < |d[1..]| && d[1..][j].0 == tail[i].0;
          assert d[j + 1].0 == tail[i].0;
        }
      }
    } else if d != [] {
      assert forall i :: 0 < i < |d'| ==> d'[i] == d[i];
    }
  }

  lemma {:induction false} StoreGood(d: Dict, k: string, v: string, clean: bool)
    requires GoodAttributes(d, clean) && GoodName(k) && GoodValue(v, clean)
    ensures GoodAttributes(Store(d, k, v), clean)
  {
    hide GoodAttributes, GoodName, GoodValue, Put, Lookup, REQUIRE, VERSION;
    PutGood(d, k, Some(v), clean);
    RequireIsGood();
    PutGood(Put(d, k, Some(v)), REQUIRE, None, clean);
  }

  lemma {:induction false} RequireIsGood()
    ensures GoodName(REQUIRE)
  {
    var r := REQUIRE;
    assert r[0] == 'R' && r[1] == 'e' && r[2] == 'q' && r[3] == 'u' && r[4] == 'i' && r[5] == 'r' && r[6] == 'e'
           && |r| == 7;
    hide REQUIRE;
    NoColon(r);
  }

  lemma {:induction false} NoColon(s: string)
    requires ':' !in s
    ensures FindSeparator(s).None?
  {
    if |s| >= 2 {
      assert s[0] in s;
      NoColon(s[1..]);
    }
  }

  /** The index has no blank continuation lines and no empty Require. */
  ghost predicate Clean(line: string) {
    && line != ""
    && (IsSpace(line[0]) && line[0] != '\n' ==> RStrip(line) != "")
    && (FindSeparator(line).Some? && line[..FindSeparator(line).value] == REQUIRE ==>
          RStrip(line[FindSeparator(line).value + 2..]) != "")
  }

  lemma {:induction false} BeforeSeparator(s: string)
    requires FindSeparator(s).Some?
    ensures FindSeparator(s[..FindSeparator(s).value]).None?
  {
    var i := FindSeparator(s).value;
    if i >= 2 {
      BeforeSeparator(s[1..]);
      assert s[..i][1..] == s[1..][..i - 1];
      assert s[..i][0] == s[0] && s[..i][1] == s[1];
    }
  }

  lemma {:induction false} OneLineValue(v: string, clean: bool)
    requires '\n' !in v && RStrip(v) == v
    ensures GoodValue(v, clean)
  {
    assert Split(v, '\n') == [v];
  }

  lemma {:induction false} MoreValue(v: string, c: string, clean: bool)
    requires GoodValue(v, clean) && (GoodContinuation(c) || (!clean && c == "")) && '\n' !in c
    ensures GoodValue(v + "\n" + c, clean)
  {
    hide Split, Join, RStrip, GoodContinuation;
    var parts := Split(v, '\n');
    SplitPieces(v, '\n');
    JoinSnoc(parts, c);
    SplitJoin(parts + [c], '\n');
  }

  lemma {:induction false} JoinSnoc(parts: seq<string>, c: string)
    requires parts != []
    ensures Join(parts + [c], '\n') == Join(parts, '\n') + "\n" + c
  {
    if |parts| > 1 {
      assert (parts + [c])[1..] == parts[1..] + [c];
      JoinSnoc(parts[1..], c);
    } else {
      assert (parts + [c])[1..] == [c];
    }
  }

  lemma {:induction false} NewValue(line: string, i: nat, clean: bool)
    requires IsLine(line) && i <= |line|
    ensures GoodValue(RStrip(line[i..]), clean)
  {
    hide GoodValue, RStrip;
    RStripShape(line[i..]);
    if line[i..] == "" {
      assert '\n' !in RStrip(line[i..]);
    } else {
      NoNewline(line[i..], RStrip(line[i..]));
    }
    OneLineValue(RStrip(line[i..]), clean);
  }

  // ----- Reading lines -----

  /** What holds of a record while lines are read, and what more while clean lines are. */
  ghost predicate GoodRecord(r: Record, clean: bool) {
    && GoodAttributes(r.stored, clean) && (Neither(r.stored) || Settled(r.stored, clean))
    && (r.attribute != "" ==> GoodName(r.attribute) && GoodValue(r.value, clean))
    && (clean && r.attribute == REQUIRE ==> r.value != "")
  }

  lemma {:induction false} FlushGood(r: Record, clean: bool)
    requires GoodRecord(r, clean)
    ensures var d := Flush(r); GoodAttributes(d, clean) && (Neither(d) || Settled(d, clean))
  {
    hide GoodAttributes, GoodName, GoodValue, Neither, Settled, Store, REQUIRE;
    if r.attribute != "" {
      StoreGood(r.stored, r.attribute, r.value, clean);
      StoreKeepsPlace(r.stored, r.attribute, r.value, clean);
    }
  }

  lemma {:induction false} ReadLineGood(r: Record, line: string, clean: bool)
    requires GoodRecord(r, clean) && IsLine(line) && (clean ==> Clean(line)) && line[0] != '\n'
    requires ReadLine(r, line).Some?
    ensures GoodRecord(ReadLine(r, line).value, clean)
  {
    hide GoodAttributes, Neither, Settled, Store, REQUIRE, GoodValue, FindSeparator, RStrip;
    if IsSpace(line[0]) {
      var c := RStrip(line);
      RStripShape(line);
      NoNewline(line, c);
      assert c != "" ==> c[0] == line[0];
      if r.attribute != "" { MoreValue(r.value, c, clean); }
    } else {
      FlushGood(r, clean);
      var i := FindSeparator(line).value;
      BeforeSeparator(line);
      var k, v := line[..i], RStrip(line[i + 2..]);
      assert forall j :: 0 <= j < |k| ==> k[j] == line[j];
      NewValue(line, i + 2, clean);
    }
  }

  lemma {:induction false} ReadRecordGood(r: Record, lines: seq<string>, clean: bool)
    requires GoodRecord(r, clean) && ReadRecord(r, lines).Some?
    requires forall i :: 0 <= i < |lines| ==> IsLine(lines[i]) && (clean ==> Clean(lines[i]))
    ensures var p := ReadRecord(r, lines).value.0; GoodAttributes(p, clean) && Placed(p, clean)
    ensures forall i :: 0 <= i < |ReadRecord(r, lines).value.1| ==> ReadRecord(r, lines).value.1[i] in lines
    decreases |lines|
  {
    hide GoodRecord, GoodAttributes, Placed, Finish, IsLine, Clean, ReadLine;
    if lines == [] || EndsRecord(lines[0]) {
      FinishGood(r, clean);
    } else {
      LineNotEnd(lines[0]);
      ReadLineGood(r, lines[0], clean);
      ReadRecordGood(ReadLine(r, lines[0]).value, lines[1..], clean);
    }
  }

  lemma {:induction false} LineNotEnd(line: string)
    requires IsLine(line) && !EndsRecord(line)
    ensures line != "" && line[0] != '\n'
  {
  }

  lemma {:induction false} FinishGood(r: Record, clean: bool)
    requires GoodRecord(r, clean)
    ensures GoodAttributes(Finish(r), clean) && Placed(Finish(r), clean)
  {
    Names();
    hide GoodAttributes, GoodName, GoodValue, Neither, Settled, Placed, VERSION, REQUIRE, Put, Has;
    var d := if r.attribute == "" then r.stored else Put(r.stored, r.attribute, Some(r.value));
    if r.attribute != "" { PutGood(r.stored, r.attribute, Some(r.value), clean); }
    RequireIsGood();
    PutGood(d, REQUIRE, None, clean);
    if r.attribute == VERSION {
      LastVersionPlaced(r.stored, r.value, clean);
    } else {
      if r.attribute != "" { PutKeepsPlace(r.stored, r.attribute, r.value, clean); }
      WithRequirePlaced(d, clean);
    }
  }

  lemma {:induction false} LastVersionPlaced(d: Dict, v: string, clean: bool)
    requires Neither(d) || Settled(d, clean)
    ensures Placed(WithRequire(Put(d, VERSION, Some(v))), clean)
  {
    Names();
    hide VERSION, REQUIRE, Put, Settled, Placed;
    if Settled(d, clean) {
      PutVersion(d, v, clean);
      SettledHasRequire(Put(d, VERSION, Some(v)), clean);
    } else {
      PutNew(d, VERSION, Some(v));
      HasSnoc(d, VERSION, Some(v), REQUIRE);
      PutNew(d + [(VERSION, Some(v))], REQUIRE, None);
      VersionThenRequire(d, v, clean);
      SettledHasRequire(d + [(VERSION, Some(v))] + [(REQUIRE, None)], clean);
    }
  }

  /** What every parsed package is like, and what more those of a clean index are. */
  lemma {:induction false} ReadAllGood(lines: seq<string>, clean: bool)
    requires forall i :: 0 <= i < |lines| ==> IsLine(lines[i]) && (clean ==> Clean(lines[i]))
    requires ReadAll(lines).Some?
    ensures forall i :: 0 <= i < |ReadAll(lines).value| ==>
              GoodAttributes(ReadAll(lines).value[i], clean) && Placed(ReadAll(lines).value[i], clean)
    decreases |lines|
  {
    hide GoodAttributes, Placed, IsLine, Clean, ReadRecord;
    if lines == [] {
    } else if !StartsRecord(lines[0]) {
      ReadAllGood(lines[1..], clean);
    } else {
      StartIsGood(clean);
      ReadRecordGood(START, lines, clean);
      var (p, rest) := ReadRecord(START, lines).value;
      forall i | 0 <= i < |rest| ensures IsLine(rest[i]) && (clean ==> Clean(rest[i])) {
        assert rest[i] in lines;
      }
      ReadAllGood(rest, clean);
    }
  }

  lemma {:induction false} StartIsGood(clean: bool)
    ensures GoodRecord(START, clean)
  {
    Names();
  }

  // ----- Carriage returns -----

  lemma {:induction false} PutPlain(d: Dict, k: string, v: Option<string>)
    requires NoReturns(d) && '\r' !in k && (v.Some? ==> '\r' !in v.value)
    ensures NoReturns(Put(d, k, v))
  {
    if d != [] && d[0].0 != k {
      assert forall i :: 0 <= i < |d[1..]| ==> d[1..][i] == d[i + 1];
      PutPlain(d[1..], k, v);
    }
  }

  ghost predicate PlainRecord(r: Record) {
    NoReturns(r.stored) && '\r' !in r.attribute && '\r' !in r.value
  }

  lemma {:induction false} ReadLinePlain(r: Record, line: string)
    requires PlainRecord(r) && line != "" && '\r' !in line && ReadLine(r, line).Some?
    ensures PlainRecord(ReadLine(r, line).value)
  {
    hide NoReturns, Put, Lookup, FindSeparator, RStrip;
    RStripShape(line);
    assert '\r' !in REQUIRE;
    hide REQUIRE;
    if !IsSpace(line[0]) {
      var i := FindSeparator(line).value;
      RStripShape(line[i + 2..]);
      PutPlain(r.stored, r.attribute, Some(r.value));
      PutPlain(Put(r.stored, r.attribute, Some(r.value)), REQUIRE, None);
    }
  }

  lemma {:induction false} FinishPlain(r: Record)
    requires PlainRecord(r)
    ensures NoReturns(Finish(r))
  {
    hide NoReturns, Put, Has;
    assert '\r' !in REQUIRE;
    hide REQUIRE;
    PutPlain(r.stored, r.attribute, Some(r.value));
    PutPlain(if r.attribute == "" then r.stored else Put(r.stored, r.attribute, Some(r.value)), REQUIRE, None);
  }

  lemma {:induction false} ReadRecordPlain(r: Record, lines: seq<string>)
    requires PlainRecord(r) && ReadRecord(r, lines).Some? && forall i :: 0 <= i < |lines| ==> '\r' !in lines[i]
    ensures NoReturns(ReadRecord(r, lines).value.0)
    ensures forall i :: 0 <= i < |ReadRecord(r, lines).value.1| ==> '\r' !in ReadRecord(r, lines).value.1[i]
    decreases |lines|
  {
    hide PlainRecord, NoReturns, Finish, ReadLine;
    if lines == [] || EndsRecord(lines[0]) {
      FinishPlain(r);
    } else {
      ReadLinePlain(r, lines[0]);
      ReadRecordPlain(ReadLine(r, lines[0]).value, lines[1..]);
    }
  }

  lemma {:induction false} ReadAllPlain(lines: seq<string>)
    requires ReadAll(lines).Some? && forall i :: 0 <= i < |lines| ==> '\r' !in lines[i]
    ensures forall i :: 0 <= i < |ReadAll(lines).value| ==> NoReturns(ReadAll(lines).value[i])
    decreases |lines|
  {
    hide NoReturns, ReadRecord;
    if lines == [] {
    } else if !StartsRecord(lines[0]) {
      ReadAllPlain(lines[1..]);
    } else {
      assert PlainRecord(START) by { EmptyPlain(); }
      ReadRecordPlain(START, lines);
      ReadAllPlain(ReadRecord(START, lines).value.1);
    }
  }

  lemma {:induction false} EmptyPlain()
    ensures NoReturns([])
  {
  }
}

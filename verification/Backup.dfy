/**
 The partition table of a miner's NAND as the backup writes it into uEnv.txt and the restore reads
 it back.
 */
module Backup {
  import opened Wrappers
  import opened Text
  import opened Rounding

  // ----- Sizes -----

  /** mtdpart_size_to_int; `None` where Python raises. */
  function SizeToInt(value: string): Option<int> {
    if value == "" then None
    else
      var unit := value[|value| - 1];
      if unit == 'k' || unit == 'm' || unit == 'g' then
        match ParseInt(value[..|value| - 1])
        case None => None
        case Some(n) => Some(n * Multiplier(unit))
      else ParseInt(value)
  }

  function Multiplier(unit: char): nat
    requires unit == 'k' || unit == 'm' || unit == 'g'
  {
    if unit == 'k' then 1024 else if unit == 'm' then 1024 * 1024 else 1024 * 1024 * 1024
  }

  /** `int(value / 1024)` on a multiple of 1024; `None` where Python raises. */
  function Divided(value: nat): Option<nat> {
    var q := Nearest(value / 1024);
    if q < FLOAT_LIMIT then Some(q) else None
  }

  /** mtdparts_size_to_str; `None` where Python raises. */
  function SizeToStr(value: nat): (r: Option<string>)
    ensures r.Some? ==> |r.value| > 0 && forall i :: 0 <= i < |r.value| ==> IsDigit(r.value[i]) || r.value[i] in "kmg"
  {
    if value % 1024 != 0 then Some(Decimal(value))
    else match Divided(value)
      case None => None
      case Some(k) =>
        if k % 1024 != 0 then Some(Decimal(k) + "k")
        else match Divided(k)
          case None => None
          case Some(m) =>
            if m % 1024 != 0 then Some(Decimal(m) + "m")
            else match Divided(m)
              case None => None
              case Some(g) => Some(Decimal(g) + "g")
  }

  /** The size can be printed. */
  predicate Prints(size: nat) {
    size % 1024 == 0 ==> Nearest(size / 1024) < FLOAT_LIMIT
  }

  /** The size that is read back. */
  function ReadBack(size: nat): nat {
    if size % 1024 != 0 then size else 1024 * Nearest(size / 1024)
  }

  /** A size is read back unchanged. */
  predicate Kept(size: nat) {
    size % 1024 == 0 ==> Representable(size / 1024)
  }

  lemma {:induction false} WithUnit(n: nat, unit: char)
    requires unit == 'k' || unit == 'm' || unit == 'g'
    ensures unit == 'k' ==> SizeToInt(Decimal(n) + "k") == Some(n * 1024)
    ensures unit == 'm' ==> SizeToInt(Decimal(n) + "m") == Some(n * 1_048_576)
    ensures unit == 'g' ==> SizeToInt(Decimal(n) + "g") == Some(n * 1_073_741_824)
  {
    hide ParseInt, Decimal;
    var s := Decimal(n) + [unit];
    assert s[..|s| - 1] == Decimal(n);
    DecimalRoundTrip(n);
  }

  lemma {:induction false} PlainNumber(value: nat)
    ensures SizeToInt(Decimal(value)) == Some(value)
  {
    hide ParseInt, Decimal;
    var s := Decimal(value);
    assert '0' <= s[|s| - 1] <= '9';
    DecimalRoundTrip(value);
  }

  /** Dividing a double once more is exact. */
  lemma {:induction false} DividesExactly(k: nat)
    requires Representable(k) && k < FLOAT_LIMIT && k % 1024 == 0
    ensures Divided(k) == Some(k / 1024) && Representable(k / 1024)
  {
    hide Representable, Nearest, FLOAT_LIMIT;
    assert k == 1024 * (k / 1024);
    DividedDouble(k / 1024);
    NearestExactly(k / 1024);
  }

  /** Which sizes can be printed, and what a printed size is read back as. */
  lemma {:induction false} SizeReadBack(size: nat)
    ensures SizeToStr(size).Some? <==> Prints(size)
    ensures Prints(size) ==> SizeToInt(SizeToStr(size).value) == Some(ReadBack(size))
  {
    hide Decimal, SizeToInt, Nearest, Representable, FLOAT_LIMIT;
    if size % 1024 != 0 {
      PlainNumber(size);
    } else if Prints(size) {
      var k := Nearest(size / 1024);
      NearestIsNearest(size / 1024, 0) by { ZeroIsDouble(); }
      WithUnit(k, 'k');
      if k % 1024 == 0 {
        DividesExactly(k);
        var m := k / 1024;
        WithUnit(m, 'm');
        if m % 1024 == 0 {
          DividesExactly(m);
          WithUnit(m / 1024, 'g');
        }
      }
    }
  }

  lemma {:induction false} ZeroIsDouble()
    ensures Representable(0)
  {
  }

  /**
   Printing a size and reading it back gives the size exactly when its 1024th part, if it is taken,
   is a double.
   */
  lemma {:induction false} SizeRoundTrip(size: nat)
    requires SizeToStr(size).Some?
    ensures SizeToInt(SizeToStr(size).value) == Some(size) <==> Kept(size)
  {
    hide SizeToStr, SizeToInt, ReadBack, Kept;
    SizeReadBack(size);
    KeptExactly(size);
  }

  /** In particular every size below 2^63 is kept, and (2^53 + 1) KiB is the first that is not. */
  lemma {:induction false} SmallSizesKept(size: nat)
    ensures size < 1024 * (TWO53 + 1) ==> Prints(size) && Kept(size)
    ensures !Kept(1024 * (TWO53 + 1))
  {
    hide FLOAT_LIMIT;
    if size < 1024 * (TWO53 + 1) {
      assert size / 1024 <= TWO53;
      NearestExactly(size / 1024);
      LimitIsLarge();
    }
  }

  lemma {:induction false} LimitIsLarge()
    ensures FLOAT_LIMIT > TWO53
  {
  }

  /** The loop over the units, with its division in floating point. */
  method MtdpartsSizeToStr(size: nat) returns (r: Option<string>)
    ensures r == SizeToStr(size)
    ensures r.Some? <==> Prints(size)
    ensures r.Some? ==> SizeToInt(r.value) == Some(ReadBack(size))
  {
    hide Divided, Decimal, SizeToInt;
    SizeReadBack(size);
    var units := ["", "k", "m"];
    var value, i := size, 0;
    while i < |units| && value % 1024 == 0
      invariant 0 <= i <= 3
      invariant i == 0 ==> value == size
      invariant i >= 1 ==> size % 1024 == 0 && Divided(size).Some?
      invariant i == 1 ==> value == Divided(size).value
      invariant i >= 2 ==> Divided(size).value % 1024 == 0 && Divided(Divided(size).value).Some?
      invariant i == 2 ==> value == Divided(Divided(size).value).value
      invariant i == 3 ==> Divided(Divided(size).value).value % 1024 == 0
      invariant i == 3 ==> Divided(Divided(Divided(size).value).value) == Some(value)
    {
      var q := Divided(value);
      if q.None? {
        return None;
      }
      value := q.value;
      i := i + 1;
    }
    var unit := if i < |units| then units[i] else "g";
    if i == 0 {
      assert Decimal(value) + unit == Decimal(value);
    }
    return Some(Decimal(value) + unit);
  }

  // ----- The recovery line -----

  datatype Partition = Partition(size: nat, name: string)

  datatype Device = Device(id: string, size: int, name: string)

  const FIRST_LINE := "recovery=yes"
  const RECOVERY_MTDPARTS := "recovery_mtdparts="
  const NAND := "mtdparts=pl35x-nand:"

  predicate PrintsAll(ps: seq<Partition>) {
    forall i :: 0 <= i < |ps| ==> Prints(ps[i].size)
  }

  function Entry(p: Partition): string
    requires Prints(p.size)
  {
    SizeReadBack(p.size);
    SizeToStr(p.size).value + "(" + p.name + ")"
  }

  function Entries(ps: seq<Partition>): (es: seq<string>)
    requires PrintsAll(ps)
    ensures |es| == |ps| && forall i :: 0 <= i < |es| ==> es[i] == Entry(ps[i])
  {
    if ps == [] then [] else Entries(ps[..|ps| - 1]) + [Entry(ps[|ps| - 1])]
  }

  /** The uEnv.txt that ssh_backup writes. */
  function UEnv(ps: seq<Partition>, mac: string): string
    requires PrintsAll(ps)
  {
    FIRST_LINE + "\n" + (RECOVERY_MTDPARTS + (NAND + Join(Entries(ps), ',')) + "\n" + ("ethaddr=" + mac + "\n"))
  }

  /** The three lines of the file. */
  lemma {:induction false} UEnvLines(ps: seq<Partition>, mac: string)
    requires PrintsAll(ps) && '\n' !in Join(Entries(ps), ',') && '\n' !in mac
    ensures Lines(UEnv(ps, mac)) == ["recovery=yes" + "\n",
                                    "recovery_mtdparts=mtdparts=pl35x-nand:" + Join(Entries(ps), ',') + "\n",
                                    "ethaddr=" + mac + "\n"]
  {
    Spelled();
    hide Lines, Join, FIRST_LINE, RECOVERY_MTDPARTS, NAND, Entries;
    ThreeLines(FIRST_LINE, RECOVERY_MTDPARTS + (NAND + Join(Entries(ps), ',')), "ethaddr=" + mac);
  }

  lemma {:induction false} ThreeLines(a: string, b: string, c: string)
    requires '\n' !in a && '\n' !in b && '\n' !in c
    ensures Lines(a + "\n" + (b + "\n" + (c + "\n"))) == [a + "\n", b + "\n", c + "\n"]
  {
    hide Lines;
    assert c + "\n" == c + "\n" + "";
    FirstLine(a, b + "\n" + (c + "\n"));
    FirstLine(b, c + "\n");
    FirstLine(c, "");
    EmptyText();
  }

  lemma {:induction false} Spelled()
    ensures FIRST_LINE == "recovery=yes" && '\n' !in FIRST_LINE
    ensures forall s :: RECOVERY_MTDPARTS + (NAND + s) == "recovery_mtdparts=mtdparts=pl35x-nand:" + s
    ensures '\n' !in RECOVERY_MTDPARTS && '\n' !in NAND && '\n' !in "ethaddr="
  {
    assert RECOVERY_MTDPARTS + NAND == "recovery_mtdparts=mtdparts=pl35x-nand:";
    var a, b := RECOVERY_MTDPARTS, NAND;
    hide RECOVERY_MTDPARTS, NAND;
    forall s ensures a + (b + s) == a + b + s {
    }
  }

  lemma {:induction false} EmptyText()
    ensures Lines("") == []
  {
  }

  /** Writes the file, unless a size cannot be printed. */
  method WriteUEnv(ps: seq<Partition>, mac: string) returns (text: Option<string>)
    ensures text.Some? <==> PrintsAll(ps)
    ensures text.Some? ==> text.value == UEnv(ps, mac)
  {
    hide Prints, ReadBack, SizeToInt, SizeToStr, Join;
    var mtdparts: seq<string> := [];
    for i := 0 to |ps|
      invariant PrintsAll(ps[..i]) && mtdparts == Entries(ps[..i])
    {
      var size := MtdpartsSizeToStr(ps[i].size);
      if size.None? {
        return None;
      }
      mtdparts := mtdparts + [size.value + "(" + ps[i].name + ")"];
      assert ps[..i + 1][..i] == ps[..i];
    }
    assert ps[..|ps|] == ps;
    return Some(FIRST_LINE + "\n" +
                (RECOVERY_MTDPARTS + (NAND + Join(mtdparts, ',')) + "\n" + ("ethaddr=" + mac + "\n")));
  }

  /** parse_uenv on the lines of the file. */
  function FirstRecovery(lines: seq<string>): Option<string> {
    if lines == [] then None
    else if RECOVERY_MTDPARTS <= lines[0] then Some(Strip(lines[0][|RECOVERY_MTDPARTS|..]))
    else FirstRecovery(lines[1..])
  }

  method ParseUEnv(text: string) returns (r: Option<string>)
    ensures r == FirstRecovery(Lines(Universal(text)))
  {
    var lines := Lines(Universal(text));
    for i := 0 to |lines|
      invariant FirstRecovery(lines) == FirstRecovery(lines[i..])
    {
      if RECOVERY_MTDPARTS <= lines[i] {
        return Some(Strip(lines[i][|RECOVERY_MTDPARTS|..]));
      }
    }
    return None;
  }

  /** One entry of the list, as parse_mtdparts reads it. */
  function ParseEntry(entry: string, index: nat): Option<Device> {
    match Find(entry, '(')
    case None => None
    case Some(start) =>
      match SizeToInt(entry[..start])
      case None => None
      case Some(size) =>
        Some(Device("mtd" + Decimal(index), size, if |entry| > start + 1 then entry[start + 1..|entry| - 1] else ""))
  }

  function ParseEntries(entries: seq<string>): Option<seq<Device>>
    decreases |entries|
  {
    if entries == [] then Some([])
    else
      var n := |entries| - 1;
      match (ParseEntries(entries[..n]), ParseEntry(entries[n], n))
      case (Some(ds), Some(d)) => Some(ds + [d])
      case _ => None
  }

  /** What parse_mtdparts yields; `None` where Python raises. */
  function Devices(value: string): Option<seq<Device>> {
    DevicesIn(Strip(if |value| >= |RECOVERY_MTDPARTS| then value[|RECOVERY_MTDPARTS|..] else ""))
  }

  function DevicesIn(value: string): Option<seq<Device>> {
    match Find(value, ':')
    case None => None
    case Some(i) => ParseEntries(Split(value[i + 1..], ','))
  }

  method ParseMtdparts(text: string) returns (r: Option<seq<Device>>)
    ensures r == Devices(text)
  {
    hide RECOVERY_MTDPARTS, Strip, Find, Split, ParseEntry;
    var value := Strip(if |text| >= |RECOVERY_MTDPARTS| then text[|RECOVERY_MTDPARTS|..] else "");
    var colon := Find(value, ':');
    if colon.None? {
      return None;
    }
    var entries := Split(value[colon.value + 1..], ',');
    var devices: seq<Device> := [];
    for mtdIndex := 0 to |entries|
      invariant ParseEntries(entries[..mtdIndex]) == Some(devices)
    {
      assert entries[..mtdIndex + 1][..mtdIndex] == entries[..mtdIndex];
      var d := ParseEntry(entries[mtdIndex], mtdIndex);
      if d.None? {
        FailsFrom(entries, mtdIndex + 1);
        return None;
      }
      devices := devices + [d.value];
    }
    assert entries[..|entries|] == entries;
    return Some(devices);
  }

  lemma {:induction false} FailsFrom(entries: seq<string>, k: nat)
    requires k <= |entries| && ParseEntries(entries[..k]).None?
    ensures ParseEntries(entries).None?
    decreases |entries|
  {
    if k == |entries| {
      assert entries[..k] == entries;
    } else {
      assert entries[..|entries| - 1][..k] == entries[..k];
      FailsFrom(entries[..|entries| - 1], k);
    }
  }

  // ----- The round trip -----

  ghost predicate PlainName(name: string) {
    ',' !in name && '\n' !in name && '\r' !in name
  }

  ghost predicate PlainNames(ps: seq<Partition>) {
    forall i :: 0 <= i < |ps| ==> PlainName(ps[i].name)
  }

  /** The devices that the partitions are read back as. */
  function Numbered(ps: seq<Partition>): (ds: seq<Device>)
    ensures |ds| == |ps|
    ensures forall i :: 0 <= i < |ds| ==> ds[i] == Device("mtd" + Decimal(i), ReadBack(ps[i].size), ps[i].name)
  {
    if ps == [] then []
    else
      var n := |ps| - 1;
      Numbered(ps[..n]) + [Device("mtd" + Decimal(n), ReadBack(ps[n].size), ps[n].name)]
  }

  lemma {:induction false} EntryRoundTrip(p: Partition, index: nat)
    requires Prints(p.size)
    ensures ParseEntry(Entry(p), index) == Some(Device("mtd" + Decimal(index), ReadBack(p.size), p.name))
  {
    hide SizeToStr, SizeToInt, Decimal, Prints, ReadBack;
    SizeReadBack(p.size);
    var s, entry := SizeToStr(p.size).value, Entry(p);
    assert '(' !in s by { SizeChars(p.size); }
    assert entry == s + ['('] + (p.name + ")");
    FindAfter(s, '(', p.name + ")");
    assert entry[..|s|] == s && entry[|s| + 1..|entry| - 1] == p.name;
  }

  lemma {:induction false} SizeChars(size: nat)
    requires Prints(size)
    ensures SizeToStr(size).Some?
    ensures var s := SizeToStr(size).value; '(' !in s && ',' !in s && '\n' !in s && '\r' !in s
  {
    hide SizeToStr, SizeToInt, Prints;
    SizeReadBack(size);
  }

  lemma {:induction false} EntriesRoundTrip(ps: seq<Partition>)
    requires PrintsAll(ps)
    ensures ParseEntries(Entries(ps)) == Some(Numbered(ps))
  {
    hide Entry, ParseEntry, Decimal, Prints, ReadBack;
    if ps != [] {
      var n := |ps| - 1;
      EntriesRoundTrip(ps[..n]);
      EntryRoundTrip(ps[n], n);
      assert Entries(ps)[..n] == Entries(ps[..n]);
    }
  }

  lemma {:induction false} EntryChars(p: Partition)
    requires PlainName(p.name) && Prints(p.size)
    ensures ',' !in Entry(p) && '\n' !in Entry(p) && '\r' !in Entry(p)
    ensures |Entry(p)| > 0 && Entry(p)[|Entry(p)| - 1] == ')'
  {
    hide SizeToStr, Prints;
    SizeChars(p.size);
    var s := SizeToStr(p.size).value;
    forall c | c in Entry(p) ensures c in s || c == '(' || c in p.name || c == ')' {
    }
  }

  /** An entry that can stand in a line. */
  ghost predicate EntryLike(s: string) {
    |s| > 0 && '\n' !in s && '\r' !in s && s[|s| - 1] == ')'
  }

  lemma {:induction false} JoinedChars(parts: seq<string>)
    requires parts != [] && forall i :: 0 <= i < |parts| ==> EntryLike(parts[i])
    ensures EntryLike(Join(parts, ','))
  {
    if |parts| > 1 {
      JoinedChars(parts[1..]);
    }
  }

  lemma {:induction false} Literals()
    ensures |RECOVERY_MTDPARTS| == 18 && '\n' !in RECOVERY_MTDPARTS && '\r' !in RECOVERY_MTDPARTS
    ensures '\n' !in FIRST_LINE && '\r' !in FIRST_LINE && !(RECOVERY_MTDPARTS <= FIRST_LINE + "\n")
    ensures |NAND| == 20 && '\n' !in NAND && '\r' !in NAND && NAND[0] == 'm' && NAND[18] == 'd' && NAND[19] == ':'
  {
    assert (FIRST_LINE + "\n")[8] == '=' && RECOVERY_MTDPARTS[8] == '_';
  }

  /** The line that restoring looks for is the second one, and what follows its prefix is found. */
  lemma {:induction false} RecoveryLine(s: string, rest: string)
    requires '\n' !in s && '\r' !in s && s != "" && !IsSpace(s[0]) && !IsSpace(s[|s| - 1])
    ensures FirstRecovery(Lines(Universal(FIRST_LINE + "\n" + (RECOVERY_MTDPARTS + s + "\n" + rest)))) == Some(s)
  {
    Literals();
    hide FIRST_LINE, RECOVERY_MTDPARTS, NAND, Strip, Lines, Universal;
    var line, read := RECOVERY_MTDPARTS + s, Universal(rest);
    UniversalBehind(FIRST_LINE + "\n", line + "\n" + rest);
    UniversalBehind(line + "\n", rest);
    assert Universal(FIRST_LINE + "\n" + (line + "\n" + rest)) == FIRST_LINE + "\n" + (line + "\n" + read);
    FirstLine(FIRST_LINE, line + "\n" + read);
    FirstLine(line, read);
    var lines := Lines(FIRST_LINE + "\n" + (line + "\n" + read));
    assert lines[0] == FIRST_LINE + "\n" && lines[1..] == [line + "\n"] + Lines(read);
    assert lines[1..][0] == line + "\n";
    assert (line + "\n")[|RECOVERY_MTDPARTS|..] == s + "\n";
    StripLine(s);
  }

  lemma {:induction false} DropFront(a: string, b: string, k: nat)
    requires k <= |a|
    ensures (a + b)[k..] == a[k..] + b
  {
  }

  lemma {:induction false} AfterColon(s: string)
    ensures DevicesIn(['d'] + [':'] + s) == ParseEntries(Split(s, ','))
  {
    hide ParseEntries, Split, Find;
    FindAfter(['d'], ':', s);
    assert (['d'] + [':'] + s)[2..] == s;
  }

  lemma {:induction false} AfterDevice(nand: string, s: string)
    requires |nand| == 20 && nand[18] == 'd' && nand[19] == ':' && (s == "" || !IsSpace(s[|s| - 1]))
    ensures DevicesIn(Strip((nand + s)[18..])) == ParseEntries(Split(s, ','))
  {
    hide Strip, DevicesIn, ParseEntries, Split, RStrip;
    var tail := ['d'] + [':'] + s;
    DropFront(nand, s, 18);
    assert nand[18..] == ['d'] + [':'];
    StripLine(tail);
    AfterColon(s);
  }

  /** Reading drops eighteen characters once more, which leaves the end of the device name. */
  lemma {:induction false} StrippedTwice(s: string)
    requires s == "" || !IsSpace(s[|s| - 1])
    ensures Devices(NAND + s) == ParseEntries(Split(s, ','))
  {
    Literals();
    hide RECOVERY_MTDPARTS, NAND, Strip, DevicesIn, ParseEntries, Split;
    AfterDevice(NAND, s);
  }

  /**
   For every non-empty partition list with plain names, the recovery line that a backup writes is
   found and read back as the same names and the sizes as they are kept, with ids mtd0, mtd1, ...
   */
  lemma {:induction false} PartitionsRoundTrip(ps: seq<Partition>, mac: string)
    requires ps != [] && PlainNames(ps) && PrintsAll(ps)
    ensures var line := FirstRecovery(Lines(Universal(UEnv(ps, mac))));
            line.Some? && Devices(line.value) == Some(Numbered(ps))
  {
    var s := Join(Entries(ps), ',');
    forall i | 0 <= i < |ps| ensures ',' !in Entry(ps[i]) && EntryLike(Entry(ps[i])) {
      EntryChars(ps[i]);
    }
    Literals();
    hide Entry, ParseEntry, FIRST_LINE, RECOVERY_MTDPARTS, NAND, Join, Split, Devices, Prints, ReadBack, Universal;
    JoinedChars(Entries(ps));
    RecoveryLine(NAND + s, "ethaddr=" + mac + "\n");
    StrippedTwice(s);
    SplitJoin(Entries(ps), ',');
    EntriesRoundTrip(ps);
  }

  /** A backup without partitions cannot be read back: the empty list becomes one empty entry. */
  lemma {:induction false} NoPartitionsFails(mac: string)
    ensures var line := FirstRecovery(Lines(Universal(UEnv([], mac))));
            line.Some? && Devices(line.value).None?
  {
    Literals();
    hide FIRST_LINE, RECOVERY_MTDPARTS, NAND, Universal;
    assert NAND + "" == NAND;
    RecoveryLine(NAND, "ethaddr=" + mac + "\n");
    StrippedTwice("");
    assert Split("", ',') == [""];
  }

  // ----- Names that can be read back -----

  /** The line that is read for recovery holds no line break. */
  lemma {:induction false} RecoveryPlain(lines: seq<string>)
    requires forall i :: 0 <= i < |lines| ==> IsLine(lines[i]) && '\r' !in lines[i]
    requires FirstRecovery(lines).Some?
    ensures '\n' !in FirstRecovery(lines).value && '\r' !in FirstRecovery(lines).value
  {
    hide RECOVERY_MTDPARTS, Strip, RStrip;
    if RECOVERY_MTDPARTS <= lines[0] {
      var s := lines[0][|RECOVERY_MTDPARTS|..];
      RStripShape(s);
      assert '\n' !in RStrip(s) by { if s != "" { NoNewline(s, RStrip(s)); } }
      forall c | c in Strip(s) ensures c in s && c in RStrip(s) { StripWithin(s, c); }
    } else {
      RecoveryPlain(lines[1..]);
    }
  }

  lemma {:induction false} EntryName(entry: string, index: nat, c: char)
    requires ParseEntry(entry, index).Some? && c in ParseEntry(entry, index).value.name
    ensures c in entry
  {
    hide SizeToInt, Decimal, Find;
  }

  lemma {:induction false} EntryNames(entries: seq<string>, i: nat, c: char)
    requires ParseEntries(entries).Some?
    ensures |ParseEntries(entries).value| == |entries|
    ensures i < |entries| && c in ParseEntries(entries).value[i].name ==> c in entries[i]
    decreases |entries|
  {
    hide ParseEntry;
    if entries != [] {
      var n := |entries| - 1;
      EntryNames(entries[..n], i, c);
      if i == n && c in ParseEntry(entries[n], n).value.name { EntryName(entries[n], n, c); }
    }
  }

  /** Names read from a line without line breaks are plain. */
  lemma {:induction false} DevicesPlain(value: string)
    requires '\n' !in value && '\r' !in value && Devices(value).Some?
    ensures forall i :: 0 <= i < |Devices(value).value| ==> PlainName(Devices(value).value[i].name)
  {
    hide RECOVERY_MTDPARTS, Strip, Find, Split, ParseEntries;
    var rest := if |value| >= |RECOVERY_MTDPARTS| then value[|RECOVERY_MTDPARTS|..] else "";
    var list := Strip(rest);
    var tail := list[Find(list, ':').value + 1..];
    var entries, ds := Split(tail, ','), Devices(value).value;
    EntryNames(entries, 0, ',');
    forall i | 0 <= i < |ds| ensures PlainName(ds[i].name) {
      forall c | c in ds[i].name ensures c in value && c != ',' {
        EntryNames(entries, i, c);
        SplitWithin(tail, ',', i, c);
        StripWithin(rest, c);
      }
    }
  }

  lemma {:induction false} ReadNamesPlain(text: string)
    requires FirstRecovery(Lines(Universal(text))).Some? && Devices(FirstRecovery(Lines(Universal(text))).value).Some?
    ensures var ds := Devices(FirstRecovery(Lines(Universal(text))).value).value;
            forall i :: 0 <= i < |ds| ==> PlainName(ds[i].name)
  {
    hide Lines, Universal, FirstRecovery, Devices, PlainName;
    UniversalPlain(text);
    LinesAreLines(Universal(text));
    LinesPlain(Universal(text));
    RecoveryPlain(Lines(Universal(text)));
    DevicesPlain(FirstRecovery(Lines(Universal(text))).value);
  }

  /** The devices are the partitions, numbered. */
  ghost predicate Restored(ps: seq<Partition>, devices: Option<seq<Device>>) {
    && devices.Some? && |devices.value| == |ps|
    && forall i :: 0 <= i < |ps| ==> devices.value[i] == Device("mtd" + Decimal(i), ps[i].size, ps[i].name)
  }

  /**
   Backing up and reading the backup again gives the partitions back exactly when there are any, no
   name has a comma or a line break, and every size can be printed and is kept, as all sizes below
   2^63 are. Where only sizes are at fault, they come back rounded.
   */
  method BackupAndRead(ps: seq<Partition>, mac: string) returns (devices: Option<seq<Device>>)
    ensures Restored(ps, devices) <==>
            ps != [] && PlainNames(ps) && PrintsAll(ps) && forall i :: 0 <= i < |ps| ==> Kept(ps[i].size)
    ensures devices == Some(Numbered(ps)) <==> ps != [] && PlainNames(ps) && PrintsAll(ps)
    ensures PlainNames(ps) ==> (devices.Some? <==> ps != [] && PrintsAll(ps))
  {
    hide UEnv, FirstRecovery, Lines, Devices, Universal, Prints, ReadBack, Kept, PlainName, Decimal;
    forall i | 0 <= i < |ps| ensures ReadBack(ps[i].size) == ps[i].size <==> Kept(ps[i].size) {
      KeptExactly(ps[i].size);
    }
    var text := WriteUEnv(ps, mac);
    if text.None? {
      return None;
    }
    var line := ParseUEnv(text.value);
    if ps == [] {
      NoPartitionsFails(mac);
    } else if PlainNames(ps) {
      PartitionsRoundTrip(ps, mac);
    }
    if line.None? {
      return None;
    }
    devices := ParseMtdparts(line.value);
    if devices.Some? {
      ReadNamesPlain(text.value);
      if forall i :: 0 <= i < |ps| ==> |devices.value| == |ps| && devices.value[i].name == ps[i].name {
        NamesArePlain(ps, devices.value);
      }
    }
  }

  lemma {:induction false} NamesArePlain(ps: seq<Partition>, ds: seq<Device>)
    requires |ds| == |ps| && forall i :: 0 <= i < |ps| ==> ds[i].name == ps[i].name
    requires forall i :: 0 <= i < |ds| ==> PlainName(ds[i].name)
    ensures PlainNames(ps)
  {
    hide PlainName;
  }

  lemma {:induction false} KeptExactly(size: nat)
    ensures ReadBack(size) == size <==> Kept(size)
  {
    hide Nearest, Representable;
    NearestExactly(size / 1024);
  }
}

// Typed values of catalog settings (internal/domain/fleet/catalog.go): the parser
// of what an operator or the API submits, and the printer that brings a value the
// API decoded from JSON back to the form the parser takes.
module CatalogValues {
  import opened Numbers
  import opened Wrappers
  import Text

  datatype Widget = Toggle | NumberBox | Select | TextBox | Secret | Code | TimeRange | FixedList

  datatype Entry = Entry(typ: string, hint: Option<Widget>, secret: bool)

  // ---- Which control an option gets -----------------------------------

  function ToLower(s: string): (r: string)
    ensures |r| == |s|
  {
    seq(|s|, i requires 0 <= i < |s| => if 'A' <= s[i] <= 'Z' then (s[i] as int + 32) as char else s[i])
  }

  /** A secret is always a reference, whatever hint the catalog carries. */
  function WidgetOf(e: Entry): Widget {
    var t := ToLower(e.typ);
    if e.secret then Secret
    else if e.hint.Some? then e.hint.value
    else if t == "boolean" then Toggle
    else if Text.Contains(t, "integer") then NumberBox
    else if "one of" <= t then Select
    else if "list of" <= t then Code
    else TextBox
  }

  function TrimQuotes(s: string): string {
    if s != "" && s[0] == '"' then TrimQuotes(s[1..])
    else if s != "" && s[|s| - 1] == '"' then TrimQuotes(s[..|s| - 1])
    else s
  }

  /** The named values of a `one of "a", "b"` type. */
  predicate IsOption(e: Entry, s: string) {
    s != "" && "one of " <= ToLower(e.typ) &&
    exists i :: 0 <= i < |Text.Split(e.typ[7..], ',')| && TrimQuotes(Text.Trim(Text.Split(e.typ[7..], ',')[i])) == s
  }

  predicate ClockAt(s: string, i: nat)
    requires i + 5 <= |s|
  {
    && ((s[i] in "01" && Digit(s[i + 1])) || (s[i] == '2' && '0' <= s[i + 1] <= '3'))
    && s[i + 2] == ':' && '0' <= s[i + 3] <= '5' && Digit(s[i + 4])
  }

  /** HH:MM-HH:MM. */
  predicate IsTimeRange(s: string) {
    |s| == 11 && ClockAt(s, 0) && s[5] == '-' && ClockAt(s, 6)
  }

  /** The range the option's type states. */
  predicate InRange(e: Entry, n: int) {
    var t := ToLower(e.typ);
    (Text.Contains(t, "positive") ==> n > 0) &&
        (Text.Contains(t, "unsigned") || Text.Contains(t, "non-negative") ==> n >= 0)
  }

  // ---- Values ---------------------------------------------------------

  /** A float64: a whole number, or a fraction by the digits it prints as. */
  datatype Float = Whole(literal: int) | Fraction(spelling: string)

  /** A Go value of any type. ParseValue makes strings, bools, ints and lists of
      strings; JSON decoding makes nil, strings, bools, float64s and lists of any. */
  datatype Value =
    | Nil | Words(text: string) | Flag(on: bool) | Int(n: int) | Number(f: Float)
    | Strings(items: seq<string>) | Anys(values: seq<Value>) | Other

  /** What the API has after the value went out and came back as JSON. */
  function ThroughJson(v: Value): Value {
    match v
    case Int(n) => Number(Whole(n))
    case Strings(items) => Anys(AsValues(items))
    case _ => v
  }

  // ---- Lists ----------------------------------------------------------

  /** The items of a list: lines trimmed, blank ones dropped. */
  function ItemsOf(lines: seq<string>): seq<string> {
    if lines == [] then []
    else
      var n := |lines| - 1;
      var v := Text.Trim(lines[n]);
      ItemsOf(lines[..n]) + if v == "" then [] else [v]
  }

  function AsValues(items: seq<string>): (vs: seq<Value>)
    ensures |vs| == |items| && forall i :: 0 <= i < |vs| ==> vs[i] == Words(items[i])
  {
    seq(|items|, i requires 0 <= i < |items| => Words(items[i]))
  }

  predicate Plain(s: string) {
    s != "" && Text.Trimmed(s) && '\n' !in s
  }

  /** An item the printer takes: no line break of either kind. */
  predicate OneLine(v: Value) {
    v.Words? && '\n' !in v.text && '\r' !in v.text
  }

  lemma {:induction false} ItemsArePlain(lines: seq<string>)
    requires forall i :: 0 <= i < |lines| ==> '\n' !in lines[i]
    ensures forall i :: 0 <= i < |ItemsOf(lines)| ==> Plain(ItemsOf(lines)[i])
  {
    hide Text.Trim, Text.Trimmed;
    if lines != [] {
      var n := |lines| - 1;
      ItemsArePlain(lines[..n]);
      TrimmedLine(lines[n]);
    }
  }

  lemma TrimmedLine(line: string)
    requires '\n' !in line
    ensures Text.Trim(line) == "" || Plain(Text.Trim(line))
  {
    if '\n' in Text.Trim(line) {
      Text.TrimKeeps(line, '\n');
    }
  }

  lemma TrimOfPlain(s: string)
    requires Plain(s)
    ensures Text.Trim(s) == s && s != ""
  {
  }

  lemma {:induction false} PlainItemsStay(items: seq<string>)
    requires forall i :: 0 <= i < |items| ==> Plain(items[i])
    ensures ItemsOf(items) == items
  {
    hide Text.Trimmed;
    if items != [] {
      var n := |items| - 1;
      PlainItemsStay(items[..n]);
      assert items == items[..n] + [items[n]];
      TrimOfPlain(items[n]);
    }
  }

  // ---- Parser and printer ---------------------------------------------

  function Parse(e: Entry, s: string): Result<Value> {
    match WidgetOf(e)
    case Secret => if s != "" && !Text.Slug(s) then Err("takes a secret reference name") else Ok(Words(s))
    case Toggle =>
      if s == "true" || s == "on" then Ok(Flag(true))
      else if s == "false" || s == "off" || s == "" then Ok(Flag(false))
      else Err("expects true or false")
    case NumberBox =>
      var n := IntOf(s);
      if n.None? then Err("expects an integer")
      else if !InRange(e, n.value) then Err("out of range")
      else Ok(Int(n.value))
    case Select => if IsOption(e, s) then Ok(Words(s)) else Err("must be one of")
    case TimeRange => if IsTimeRange(s) then Ok(Words(s)) else Err("must be a time range")
    case Code => ParseList(s)
    case FixedList => ParseList(s)
    case TextBox => Ok(Words(s))
  }

  function ParseList(s: string): Result<Value> {
    var items := ItemsOf(Text.Split(s, '\n'));
    if items == [] then Err("expects at least one item") else Ok(Strings(items))
  }

  function TextsOf(vs: seq<Value>): seq<string>
    requires forall i :: 0 <= i < |vs| ==> vs[i].Words?
  {
    seq(|vs|, i requires 0 <= i < |vs| => vs[i].text)
  }

  /** RawFromValue. Whole carries the literal; what is printed are the digits of the
      float64 it decodes to. Any other type is refused, ints and string lists too. */
  function Raw(v: Value): Result<string> {
    match v
    case Nil => Ok("")
    case Words(t) => Ok(t)
    case Flag(on) => Ok(if on then "true" else "false")
    case Number(Whole(n)) => Ok(Decimal(Printed(n)))
    case Number(Fraction(spelling)) => Ok(spelling)
    case Anys(vs) =>
      if forall i :: 0 <= i < |vs| ==> OneLine(vs[i]) then Ok(Text.Join(TextsOf(vs), '\n'))
      else Err("an item is no text or contains a line break")
    case _ => Err("cannot take a value of this type")
  }

  /** The list branch of ParseValue, as it runs. */
  method ParseLines(s: string) returns (r: Result<Value>)
    ensures r == ParseList(s)
  {
    hide Text.Split, Text.Trim;
    var lines := Text.Split(s, '\n');
    var out := [];
    for i := 0 to |lines|
      invariant out == ItemsOf(lines[..i])
    {
      assert lines[..i + 1][..i] == lines[..i];
      var v := Text.Trim(lines[i]);
      if v != "" {
        out := out + [v];
      }
    }
    assert lines[..|lines|] == lines;
    if out == [] {
      return Err("expects at least one item");
    }
    return Ok(Strings(out));
  }

  /** The list branch of RawFromValue: the first unusable item ends it. */
  method PrintItems(vs: seq<Value>) returns (r: Result<string>)
    ensures r.Ok? <==> Raw(Anys(vs)).Ok?
    ensures r.Ok? ==> r == Raw(Anys(vs))
  {
    var out := [];
    for i := 0 to |vs|
      invariant |out| == i && forall j :: 0 <= j < i ==> OneLine(vs[j]) && out[j] == vs[j].text
    {
      if !vs[i].Words? {
        assert !OneLine(vs[i]);
        return Err("an item is not text");
      }
      if '\n' in vs[i].text || '\r' in vs[i].text {
        assert !OneLine(vs[i]);
        return Err("an item contains a line break");
      }
      out := out + [vs[i].text];
    }
    assert out == TextsOf(vs);
    return Ok(Text.Join(out, '\n'));
  }

  // ---- What the controls take -----------------------------------------

  /** A toggle takes its five spellings and nothing else. */
  lemma TogglesTake(e: Entry, s: string)
    requires WidgetOf(e) == Toggle
    ensures Parse(e, s) == Ok(Flag(true)) <==> s in {"true", "on"}
    ensures Parse(e, s) == Ok(Flag(false)) <==> s in {"false", "off", ""}
    ensures Parse(e, s).Ok? <==> s in {"true", "on", "false", "off", ""}
  {
  }

  /** Above zero every integer type agrees; zero is refused by the positive ones, and
      less by those that say so in any of three words. */
  lemma RangesAre(e: Entry, n: int)
    ensures n > 0 ==> InRange(e, n)
    ensures InRange(e, 0) <==> !Text.Contains(ToLower(e.typ), "positive")
    ensures n < 0 ==>
            (InRange(e, n) <==>
               !Text.Contains(ToLower(e.typ), "positive") && !Text.Contains(ToLower(e.typ), "unsigned") &&
               !Text.Contains(ToLower(e.typ), "non-negative"))
  {
  }

  /** Which control an option without a secret and without a hint gets: its lowered
      type decides, "integer" anywhere in it before what it starts with. */
  lemma ControlsAre(e: Entry)
    ensures e.secret ==> WidgetOf(e) == Secret
    ensures !e.secret && e.hint.Some? ==> WidgetOf(e) == e.hint.value
    ensures !e.secret && e.hint.None? ==>
            var t, w := ToLower(e.typ), WidgetOf(e);
            && (w == Toggle <==> t == "boolean")
            && (w == NumberBox <==> Text.Contains(t, "integer"))
            && (w == Select <==> "one of" <= t && !Text.Contains(t, "integer"))
            && (w == Code <==> "list of" <= t && !Text.Contains(t, "integer"))
            && w !in {Secret, TimeRange, FixedList}
  {
    hide Text.Contains;
    if !e.secret && e.hint.None? && ToLower(e.typ) == "boolean" {
      BooleanIsNoInteger();
    }
    var t := ToLower(e.typ);
    assert "one of" <= t ==> t[0] == "one of"[0] == 'o';
    assert "list of" <= t ==> t[0] == "list of"[0] == 'l';
    assert t == "boolean" ==> t[0] == 'b';
  }

  lemma BooleanIsNoInteger()
    ensures !Text.Contains("boolean", "integer")
  {
    assert "boolean"[0..7][0] == 'b' && "integer"[0] == 'i';
    forall i: nat | i <= |"boolean"| ensures !Text.OccursAt("boolean", "integer", i) {
    }
  }

  /** How nix writes an enumeration: one of "a", "b". */
  function Quoted(name: string): string {
    "\"" + name + "\""
  }

  function Parts(names: seq<string>): (parts: seq<string>)
    ensures |parts| == |names|
    ensures forall i :: 0 <= i < |names| ==> parts[i] == (if i == 0 then "" else " ") + Quoted(names[i])
  {
    seq(|names|, i requires 0 <= i < |names| => (if i == 0 then "" else " ") + Quoted(names[i]))
  }

  function OneOf(names: seq<string>): string {
    "one of " + Text.Join(Parts(names), ',')
  }

  /** A name nix would not have to escape and that survives being taken apart. */
  predicate Nameable(name: string) {
    name != "" && ',' !in name && '"' !in name
  }

  lemma {:induction false} QuotesGo(name: string)
    requires '"' !in name && name != ""
    ensures TrimQuotes(Quoted(name)) == name
  {
    var q, half := Quoted(name), name + "\"";
    assert name[0] in name && name[|name| - 1] in name;
    assert TrimQuotes(name) == name;
    assert half[..|name|] == name && half[0] == name[0];
    assert TrimQuotes(half) == name;
    assert q[1..] == half;
  }

  lemma QuotedIsClean(name: string)
    requires ',' !in name
    ensures Quoted(name) != "" && Text.Trimmed(Quoted(name)) && ',' !in Quoted(name) && ',' !in " " + Quoted(name)
  {
    var q := Quoted(name);
    assert q[0] == '"' && q[|q| - 1] == '"';
  }

  lemma PartReads(name: string, first: bool)
    requires Nameable(name)
    ensures ',' !in (if first then "" else " ") + Quoted(name)
    ensures TrimQuotes(Text.Trim((if first then "" else " ") + Quoted(name))) == name
  {
    QuotesGo(name);
    QuotedIsClean(name);
    hide Quoted, TrimQuotes, Text.Trim, Text.Trimmed, Nameable;
    assert "" + Quoted(name) == Quoted(name);
    SpaceGoes(Quoted(name));
  }

  lemma SpaceGoes(q: string)
    requires q != "" && Text.Trimmed(q)
    ensures Text.Trim(q) == q && Text.Trim(" " + q) == q
  {
    assert (" " + q)[1..] == q;
    assert Text.TrimLeft(q) == q;
    assert Text.TrimLeft(" " + q) == q;
    hide Text.TrimLeft;
    assert Text.TrimRight(q) == Text.Trim(q);
  }

  lemma PrefixLowered(rest: string)
    ensures "one of " <= ToLower("one of " + rest) && ("one of " + rest)[7..] == rest
  {
    var s := "one of " + rest;
    assert forall i :: 0 <= i < 7 ==> s[i] == "one of "[i];
  }

  /** The options of an enumeration are the names it was written with. */
  lemma OptionsAre(names: seq<string>, hint: Option<Widget>, secret: bool, s: string)
    requires names != [] && forall i :: 0 <= i < |names| ==> Nameable(names[i])
    ensures IsOption(Entry(OneOf(names), hint, secret), s) <==> s in names
  {
    var parts := Parts(names);
    PrefixLowered(Text.Join(parts, ','));
    hide Text.Trim, TrimQuotes, Quoted;
    forall i | 0 <= i < |parts| ensures ',' !in parts[i] && TrimQuotes(Text.Trim(parts[i])) == names[i] {
      PartReads(names[i], i == 0);
    }
    Text.SplitJoin(parts, ',');
    hide Text.Split, Text.Join;
    assert OneOf(names)[7..] == Text.Join(parts, ',');
  }

  function TwoDigits(n: nat): string
    requires n < 100
  {
    [('0' as int + n / 10) as char, ('0' as int + n % 10) as char]
  }

  function Clock(h: nat, m: nat): string
    requires h < 100 && m < 100
  {
    TwoDigits(h) + ":" + TwoDigits(m)
  }

  lemma ClockReads(s: string, i: nat) returns (h: nat, m: nat)
    requires i + 5 <= |s| && ClockAt(s, i)
    ensures h < 24 && m < 60 && s[i..i + 5] == Clock(h, m)
  {
    h := (s[i] as int - '0' as int) * 10 + (s[i + 1] as int - '0' as int);
    m := (s[i + 3] as int - '0' as int) * 10 + (s[i + 4] as int - '0' as int);
    assert s[i..i + 5] == [s[i], s[i + 1], s[i + 2], s[i + 3], s[i + 4]];
  }

  lemma ClockIsRead(s: string, i: nat, h: nat, m: nat)
    requires i + 5 <= |s| && h < 24 && m < 60 && s[i..i + 5] == Clock(h, m)
    ensures ClockAt(s, i)
  {
    var c := Clock(h, m);
    assert s[i] == c[0] && s[i + 1] == c[1] && s[i + 2] == c[2] && s[i + 3] == c[3] && s[i + 4] == c[4];
  }

  /** The text is the range of those two times of day. */
  predicate RangeOf(s: string, h: nat, m: nat, h': nat, m': nat) {
    h < 24 && m < 60 && h' < 24 && m' < 60 && s == Clock(h, m) + "-" + Clock(h', m')
  }

  /** A time range is two times of day, from midnight to a minute before the next. */
  lemma TimeRangesAre(s: string)
    ensures IsTimeRange(s) <==> exists h: nat, m: nat, h': nat, m': nat :: RangeOf(s, h, m, h', m')
  {
    hide ClockAt, Clock;
    if IsTimeRange(s) {
      var h, m := ClockReads(s, 0);
      var h', m' := ClockReads(s, 6);
      assert s == s[0..5] + [s[5]] + s[6..11];
      assert RangeOf(s, h, m, h', m');
    }
    if h: nat, m: nat, h': nat, m': nat :| RangeOf(s, h, m, h', m') {
      ClockLength(h, m);
      ClockLength(h', m');
      assert s[0..5] == Clock(h, m) && s[6..11] == Clock(h', m') && s[5] == '-';
      ClockIsRead(s, 0, h, m);
      ClockIsRead(s, 6, h', m');
    }
  }

  lemma ClockLength(h: nat, m: nat)
    requires h < 100 && m < 100
    ensures |Clock(h, m)| == 5
  {
  }

  // ---- The round trips ------------------------------------------------

  lemma BooleansSurvive(e: Entry, on: bool)
    requires WidgetOf(e) == Toggle
    ensures Raw(Flag(on)).Ok? && Parse(e, Raw(Flag(on)).value) == Ok(Flag(on))
  {
  }

  /** A JSON whole number is parsed as the number its float64 prints as, if that is a
      machine integer in the type's range, and refused otherwise. So it arrives as
      written exactly when it is one and is what its float64 prints as. */
  lemma IntegersSurvive(e: Entry, n: int)
    requires WidgetOf(e) == NumberBox
    ensures Raw(Number(Whole(n))).Ok?
    ensures var parsed := Parse(e, Raw(Number(Whole(n))).value);
            && (parsed.Ok? <==> MIN_INT <= Printed(n) <= MAX_INT && InRange(e, Printed(n)))
            && (parsed.Ok? ==> parsed == Ok(Int(Printed(n))))
            && (parsed == Ok(Int(n)) <==> MIN_INT <= n <= MAX_INT && InRange(e, n) && Printed(n) == n)
  {
    IntOfDecimal(Printed(n));
  }

  /** In particular up to 2^53 either way. */
  lemma SmallIntegersSurvive(e: Entry, n: int)
    requires WidgetOf(e) == NumberBox && -TWO_53 <= n <= TWO_53 && InRange(e, n)
    ensures Parse(e, Raw(Number(Whole(n))).value) == Ok(Int(n))
  {
    SmallNumbersPrint(n);
    IntegersSurvive(e, n);
  }

  /** The first whole number beyond: it arrives as its neighbour, without an error. */
  lemma NextNumberArrivesAsItsNeighbour(e: Entry)
    requires WidgetOf(e) == NumberBox && InRange(e, TWO_53)
    ensures Parse(e, Raw(Number(Whole(TWO_53 + 1))).value) == Ok(Int(TWO_53))
  {
    assert Ulp(TWO_53 + 1) == 2 * Ulp(TWO_52);
    assert NearestDouble(TWO_53 + 1) == TWO_53;
    SmallShortest(TWO_53, |Digits(TWO_53)|);
    IntegersSurvive(e, TWO_53 + 1);
  }

  /** A fraction is refused, never truncated. */
  lemma FractionsAreRefused(e: Entry, spelling: string)
    requires WidgetOf(e) == NumberBox && '.' in spelling
    ensures Raw(Number(Fraction(spelling))) == Ok(spelling) && Parse(e, spelling).Err?
  {
    PointIsNoInteger(spelling);
    hide IntOf;
  }

  lemma EmptyListIsRefused()
    ensures ParseList(Text.Join([], '\n')).Err?
  {
    assert Text.Split("", '\n') == [""];
    assert [""][..0] == [];
    assert ItemsOf([""]) == [];
  }

  lemma RawOfTexts(items: seq<string>)
    ensures var v := Anys(AsValues(items));
            (Raw(v).Ok? <==> forall i :: 0 <= i < |items| ==> '\n' !in items[i] && '\r' !in items[i]) &&
            (Raw(v).Ok? ==> Raw(v).value == Text.Join(items, '\n'))
  {
    hide Decimal, Printed, Text.Join;
    var vs := AsValues(items);
    forall i | 0 <= i < |items| ensures OneLine(vs[i]) <==> '\n' !in items[i] && '\r' !in items[i] {
    }
    assert TextsOf(vs) == items;
  }

  lemma ParseOfTexts(items: seq<string>)
    requires forall i :: 0 <= i < |items| ==> '\n' !in items[i]
    ensures ParseList(Text.Join(items, '\n')) == Ok(Strings(items)) <==>
            items != [] && forall i :: 0 <= i < |items| ==> Plain(items[i])
  {
    hide Text.Split, Text.Join, Text.Trim;
    if items == [] {
      EmptyListIsRefused();
    } else {
      Text.SplitJoin(items, '\n');
      ItemsArePlain(items);
      if forall i :: 0 <= i < |items| ==> Plain(items[i]) {
        PlainItemsStay(items);
      }
    }
  }

  /** A JSON list of texts arrives as itself exactly when it has items, each
      non-blank, trimmed and free of line breaks. */
  lemma ListsSurvive(e: Entry, items: seq<string>)
    requires WidgetOf(e) == Code || WidgetOf(e) == FixedList
    ensures var v := Anys(AsValues(items));
            (Raw(v).Ok? && Parse(e, Raw(v).value) == Ok(Strings(items))) <==>
            items != [] && forall i :: 0 <= i < |items| ==> Plain(items[i]) && '\r' !in items[i]
  {
    hide ParseList, Raw, Text.Join, WidgetOf, Text.Trimmed;
    RawOfTexts(items);
    if Raw(Anys(AsValues(items))).Ok? {
      ParseOfTexts(items);
    }
  }

  /** The printer takes no parsed value but a text or a boolean: handed what the
      parser just returned for a number or a list, it refuses. */
  lemma ParsedNumbersAndListsDoNotPrint(e: Entry, s: string)
    requires Parse(e, s).Ok?
    ensures Raw(Parse(e, s).value).Ok? <==> Parse(e, s).value.Words? || Parse(e, s).value.Flag?
    ensures !Raw(Parse(e, s).value).Ok? <==> Parse(e, s).value.Int? || Parse(e, s).value.Strings?
  {
    hide WidgetOf, IntOf, Decimal, Printed, Text.Split, ItemsOf, IsOption, IsTimeRange, Text.Slug, InRange;
  }

  /** Through JSON it can come back: what any control accepted, sent out, decoded,
      printed and parsed again is itself, unless it is a number its float64 does not
      print as, or a list item holds a carriage return - which the parser lets in and
      the printer refuses. */
  lemma WhatParsesSurvivesJson(e: Entry, s: string)
    requires Parse(e, s).Ok?
    ensures var v := Parse(e, s).value;
            var back := Raw(ThroughJson(v));
            && (back.Ok? <==> v.Strings? ==> forall i :: 0 <= i < |v.items| ==> '\r' !in v.items[i])
            && (back.Ok? ==> (Parse(e, back.value) == Ok(v) <==> v.Int? ==> Printed(v.n) == v.n))
  {
    if WidgetOf(e) == NumberBox {
      IntOfDecimal(Parse(e, s).value.n);
      IntegersSurvive(e, Parse(e, s).value.n);
    } else if WidgetOf(e) == Code || WidgetOf(e) == FixedList {
      ParsedListSurvivesJson(e, s);
    }
  }

  lemma ParsedListSurvivesJson(e: Entry, s: string)
    requires (WidgetOf(e) == Code || WidgetOf(e) == FixedList) && Parse(e, s).Ok?
    ensures var v := Parse(e, s).value;
            v.Strings? && (Raw(ThroughJson(v)).Ok? <==> forall i :: 0 <= i < |v.items| ==> '\r' !in v.items[i]) &&
            (Raw(ThroughJson(v)).Ok? ==> Parse(e, Raw(ThroughJson(v)).value) == Ok(v))
  {
    hide Text.Join, Text.Split, WidgetOf, Text.Trimmed, Raw, Text.Trim, ItemsOf;
    var items := ItemsOf(Text.Split(s, '\n'));
    ItemsArePlain(Text.Split(s, '\n'));
    RawOfTexts(items);
    ListsSurvive(e, items);
  }

  lemma OneItem(s: string)
    requires Plain(s)
    ensures ParseList(s) == Ok(Strings([s]))
  {
    hide Text.Trimmed, Text.Split, ItemsOf;
    assert Text.Join([s], '\n') == s;
    ParseOfTexts([s]);
  }

  /** Such an item exists: the parser accepts it, the printer does not. */
  lemma CarriageReturnDoesNotPrint()
    ensures exists s :: ParseList(s) == Ok(Strings([s])) && Raw(Anys([Words(s)])).Err?
  {
    hide ParseList;
    var s := ['a', '\r', 'b'];
    OneItem(s);
    assert !OneLine([Words(s)][0]) by {
      assert s[1] == '\r';
    }
  }
}

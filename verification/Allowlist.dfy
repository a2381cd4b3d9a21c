/** The allowlist of Telegram ids: printed by scripts/telegram_allowlist.py, parsed and consulted by
    core/config.py. */
module Allowlist {
  import opened Prelude
  import opened Text

  // The decimal value of a character (Unicode category Nd), the only part of the character tables
  // that is not written out here.
  type Digits = char -> Option<nat>

  ghost predicate DigitTable(digits: Digits) {
    && (forall c: char | digits(c).Some? :: digits(c).value <= 9 && !IsSpace(c))
    && (forall c: char | '0' <= c <= '9' :: digits(c) == Some(c as nat - '0' as nat))
    && (forall c: char | c in ",_+-" :: digits(c).None?)
  }

  // str.isdecimal
  predicate IsDecimal(digits: Digits, s: string) {
    s != "" && forall i | 0 <= i < |s| :: digits(s[i]).Some?
  }

  // Digits are read from the left; an underscore adds nothing.
  function Value(digits: Digits, s: string): nat {
    if s == "" then 0
    else match digits(s[|s| - 1])
      case None => Value(digits, s[..|s| - 1])
      case Some(d) => 10 * Value(digits, s[..|s| - 1]) + d
  }

  // Digits, with single underscores allowed between them.
  predicate IsNumeral(digits: Digits, s: string) {
    && s != "" && digits(s[0]).Some?
    && forall i | 0 <= i < |s| :: digits(s[i]).Some? || (s[i] == '_' && i + 1 < |s| && digits(s[i + 1]).Some?)
  }

  // int(s) on a stripped text; None is the ValueError.
  function ParseInt(digits: Digits, s: string): Option<int> {
    if s != "" && s[0] in "+-" then
      if IsNumeral(digits, s[1..]) then
        var n: int := Value(digits, s[1..]);
        Some(if s[0] == '-' then -n else n)
      else None
    else if IsNumeral(digits, s) then Some(Value(digits, s))
    else None
  }

  // str(n)
  function Printed(n: nat): (r: string)
    ensures r != ""
    ensures forall c | c in r :: '0' <= c <= '9'
  {
    if n < 10 then [('0' as nat + n) as char] else Printed(n / 10) + [('0' as nat + n % 10) as char]
  }

  lemma {:induction false} PrintedValue(digits: Digits, n: nat)
    requires DigitTable(digits)
    ensures Value(digits, Printed(n)) == n
  {
    var s := Printed(n);
    if n < 10 {
      assert s[..0] == "" && s[0] == ('0' as nat + n) as char;
    } else {
      PrintedValue(digits, n / 10);
      assert s[..|s| - 1] == Printed(n / 10);
      assert s[|s| - 1] == ('0' as nat + n % 10) as char;
    }
  }

  // The items of a comma list, stripped, the empty ones left out.
  function Items(parts: seq<string>): (r: seq<string>) {
    if parts == [] then []
    else
      var item := Strip(parts[0], Spaces());
      (if item == "" then [] else [item]) + Items(parts[1..])
  }

  function Parts(raw: string): seq<string> { Split(Replace(raw, '\n', ','), ',') }

  function AllItems(rawValues: seq<string>): seq<string> {
    if rawValues == [] then [] else Items(Parts(rawValues[0])) + AllItems(rawValues[1..])
  }

  function IdsOf(digits: Digits, items: seq<string>): set<nat> {
    if items == [] then {} else {Value(digits, items[0])} + IdsOf(digits, items[1..])
  }

  lemma {:induction false} IdsOfConcat(digits: Digits, a: seq<string>, b: seq<string>)
    ensures IdsOf(digits, a + b) == IdsOf(digits, a) + IdsOf(digits, b)
  {
    if a == [] {
      assert a + b == b;
    } else {
      IdsOfConcat(digits, a[1..], b);
      assert (a + b)[1..] == a[1..] + b;
    }
  }

  // ---- sorted(ids) ----

  lemma {:induction false} SmallestExists(ids: set<nat>)
    requires ids != {}
    ensures exists m :: m in ids && forall x | x in ids :: m <= x
    decreases |ids|
  {
    var x :| x in ids;
    if y :| y in ids && y < x {
      SmallestExists(ids - {x});
      assert y in ids - {x};
      var m :| m in ids - {x} && forall z | z in ids - {x} :: m <= z;
      forall z | z in ids ensures m <= z {
        assert z == x || z in ids - {x};
      }
    } else {
      assert x in ids && forall z | z in ids :: x <= z;
    }
  }

  function Smallest(ids: set<nat>): (m: nat)
    requires ids != {}
    ensures m in ids && forall x | x in ids :: m <= x
  {
    SmallestExists(ids);
    var m :| m in ids && forall x | x in ids :: m <= x;
    m
  }

  predicate Increasing(s: seq<nat>) { forall i, j | 0 <= i < j < |s| :: s[i] < s[j] }

  function Ascending(ids: set<nat>): (r: seq<nat>)
    ensures forall x :: x in r <==> x in ids
    ensures Increasing(r)
    decreases |ids|
  {
    if ids == {} then [] else
      var m := Smallest(ids);
      [m] + Ascending(ids - {m})
  }

  function PrintedAll(ids: seq<nat>): (r: seq<string>)
    ensures |r| == |ids|
    ensures forall i | 0 <= i < |ids| :: r[i] == Printed(ids[i])
  {
    seq(|ids|, i requires 0 <= i < |ids| => Printed(ids[i]))
  }

  function NotDecimal(digits: Digits): string -> bool { (item: string) => !IsDecimal(digits, item) }

  // The printed list, or the first item that is not a number.
  function Built(digits: Digits, items: seq<string>): Result<string, string> {
    match Find(items, NotDecimal(digits))
    case Some(item) => Err(item)
    case None => Ok(Join(PrintedAll(Ascending(IdsOf(digits, items))), ','))
  }

  // A refused list is refused for its first item that is not decimal.
  lemma FirstBadItem(digits: Digits, items: seq<string>)
    ensures Built(digits, items).Err? <==> exists item :: item in items && !IsDecimal(digits, item)
    ensures Built(digits, items).Err? ==>
              exists i :: 0 <= i < |items| && items[i] == Built(digits, items).error && !IsDecimal(digits, items[i])
                          && forall j | 0 <= j < i :: IsDecimal(digits, items[j])
  {
    FindIsFirst(items, NotDecimal(digits));
    forall item | item in items && !IsDecimal(digits, item) ensures NotDecimal(digits)(item) {}
    if Built(digits, items).Err? {
      var i :| 0 <= i < |items| && items[i] == Built(digits, items).error && forall j | 0 <= j < i :: !NotDecimal(digits)(items[j]);
      forall j | 0 <= j < i ensures IsDecimal(digits, items[j]) { assert !NotDecimal(digits)(items[j]); }
    }
  }

  lemma BadItem(digits: Digits, before: seq<string>, item: string, rest: seq<string>)
    requires (forall x | x in before :: IsDecimal(digits, x)) && !IsDecimal(digits, item)
    ensures Built(digits, before + ([item] + rest)) == Err(item)
  {
    FindConcat(before, [item] + rest, NotDecimal(digits));
  }

  method BuildAllowlistValue(digits: Digits, rawValues: seq<string>) returns (r: Result<string, string>)
    ensures r == Built(digits, AllItems(rawValues))
  {
    var ids: set<nat> := {};
    ghost var seen: seq<string> := [];
    for i := 0 to |rawValues|
      invariant AllItems(rawValues) == seen + AllItems(rawValues[i..])
      invariant forall x | x in seen :: IsDecimal(digits, x)
      invariant ids == IdsOf(digits, seen)
    {
      var parts := Parts(rawValues[i]);
      ghost var later := AllItems(rawValues[i + 1..]);
      assert rawValues[i..][1..] == rawValues[i + 1..];
      ConcatAssociative(seen, Items(parts), later);
      assert parts[0..] == parts;
      for j := 0 to |parts|
        invariant AllItems(rawValues) == seen + (Items(parts[j..]) + later)
        invariant forall x | x in seen :: IsDecimal(digits, x)
        invariant ids == IdsOf(digits, seen)
      {
        var normalized := Strip(parts[j], Spaces());
        assert parts[j..][1..] == parts[j + 1..];
        if normalized == "" {
          assert Items(parts[j..]) == Items(parts[j + 1..]);
          continue;
        }
        ghost var rest := Items(parts[j + 1..]) + later;
        ConcatAssociative([normalized], Items(parts[j + 1..]), later);
        if !IsDecimal(digits, normalized) {
          BadItem(digits, seen, normalized, rest);
          return Err(normalized);
        }
        IdsOfConcat(digits, seen, [normalized]);
        assert [normalized][1..] == [];
        ConcatAssociative(seen, [normalized], rest);
        seen, ids := seen + [normalized], ids + {Value(digits, normalized)};
      }
      assert Items(parts[|parts|..]) + later == later;
    }
    assert seen + AllItems(rawValues[|rawValues|..]) == seen;
    r := Ok(Join(PrintedAll(Ascending(ids)), ','));
  }

  // ---- the parser ----

  function NotAnInt(digits: Digits): string -> bool { (item: string) => ParseInt(digits, item).None? }

  function IntsOf(digits: Digits, items: seq<string>): set<int> {
    if items == [] then {}
    else (match ParseInt(digits, items[0]) case Some(id) => {id} case None => {}) + IntsOf(digits, items[1..])
  }

  lemma {:induction false} IntsOfLast(digits: Digits, items: seq<string>, last: string)
    requires ParseInt(digits, last).Some?
    ensures IntsOf(digits, items + [last]) == IntsOf(digits, items) + {ParseInt(digits, last).value}
  {
    if items == [] {
      assert items + [last] == [last] && [last][1..] == [];
    } else {
      IntsOfLast(digits, items[1..], last);
      assert (items + [last])[1..] == items[1..] + [last];
    }
  }

  function ParsedItems(digits: Digits, items: seq<string>): Option<set<int>> {
    if Find(items, NotAnInt(digits)).Some? then None else Some(IntsOf(digits, items))
  }

  lemma BadInt(digits: Digits, before: seq<string>, item: string, rest: seq<string>)
    requires ParseInt(digits, item).None?
    ensures ParsedItems(digits, before + ([item] + rest)) == None
  {
    assert item in before + ([item] + rest);
    assert NotAnInt(digits)(item);
  }

  function Parsed(digits: Digits, text: string): Option<set<int>> { ParsedItems(digits, Items(Split(text, ','))) }

  // None when some item is not a number.
  method AllowedTelegramUserIds(digits: Digits, text: string) returns (r: Option<set<int>>)
    ensures r == Parsed(digits, text)
  {
    var values: set<int> := {};
    var parts := Split(text, ',');
    ghost var seen: seq<string> := [];
    assert parts[0..] == parts;
    for i := 0 to |parts|
      invariant Items(parts) == seen + Items(parts[i..])
      invariant forall x | x in seen :: ParseInt(digits, x).Some?
      invariant values == IntsOf(digits, seen)
    {
      var item := Strip(parts[i], Spaces());
      assert parts[i..][1..] == parts[i + 1..];
      ghost var rest := Items(parts[i + 1..]);
      if item == "" {
        assert Items(parts[i..]) == rest;
        continue;
      }
      assert Items(parts[i..]) == [item] + rest;
      var id := ParseInt(digits, item);
      if id.None? {
        BadInt(digits, seen, item, rest);
        return None;
      }
      IntsOfLast(digits, seen, item);
      ConcatAssociative(seen, [item], rest);
      seen, values := seen + [item], values + {id.value};
    }
    assert seen + Items(parts[|parts|..]) == seen;
    r := Some(values);
  }

  function Allowed(digits: Digits, text: string, telegramId: int): Option<bool> {
    match Parsed(digits, text)
    case None => None
    case Some(ids) => Some(ids == {} || telegramId in ids)
  }

  // ---- printer and parser ----

  ghost predicate Plain(digits: Digits, items: seq<string>) { forall item | item in items :: IsDecimal(digits, item) }

  function Integers(ids: set<nat>): set<int> { set x | x in ids :: x as int }

  lemma DecimalParses(digits: Digits, item: string)
    requires DigitTable(digits) && IsDecimal(digits, item)
    ensures ParseInt(digits, item) == Some(Value(digits, item))
  {
    assert item[0] !in "+-";
  }

  // The parser reads decimal items as the printer does.
  lemma {:induction false} DecimalsParse(digits: Digits, items: seq<string>)
    requires DigitTable(digits) && Plain(digits, items)
    ensures ParsedItems(digits, items) == Some(Integers(IdsOf(digits, items)))
  {
    if items != [] {
      DecimalsParse(digits, items[1..]);
      DecimalParses(digits, items[0]);
      var rest := IdsOf(digits, items[1..]);
      assert Integers({Value(digits, items[0])} + rest) == {Value(digits, items[0]) as int} + Integers(rest);
    } else {
      assert Integers(IdsOf(digits, items)) == {};
    }
  }

  lemma {:induction false} ItemsOfBare(parts: seq<string>)
    requires forall p | p in parts :: p != "" && Bare(p, Spaces())
    ensures Items(parts) == parts
  {
    if parts != [] {
      assert forall p | p in parts[1..] :: p in parts;
      ItemsOfBare(parts[1..]);
      StripBares(parts[0], Spaces());
      assert parts == [parts[0]] + parts[1..];
    }
  }

  // An item between blanks is read as it is, and one of blanks alone is no item.
  lemma ItemBetweenBlanks(left: string, item: string, right: string)
    requires AllDropped(left, Spaces()) && AllDropped(right, Spaces()) && Bare(item, Spaces())
    ensures Items([left + item + right]) == if item == "" then [] else [item]
  {
    StripPadded(left, item, right, Spaces());
    assert [left + item + right][1..] == [];
  }

  lemma {:induction false} ItemsConcat(a: seq<string>, b: seq<string>)
    ensures Items(a + b) == Items(a) + Items(b)
  {
    if a == [] {
      assert a + b == b;
    } else {
      ItemsConcat(a[1..], b);
      assert (a + b)[1..] == a[1..] + b;
    }
  }

  // Commas separate items for both, line feeds for the printer alone.
  lemma ListsJoin(a: string, b: string)
    ensures AllItems([a + "," + b]) == AllItems([a]) + AllItems([b])
    ensures AllItems([a + "\n" + b]) == AllItems([a]) + AllItems([b])
    ensures Items(Split(a + "," + b, ',')) == Items(Split(a, ',')) + Items(Split(b, ','))
  {
    var x, y := Replace(a, '\n', ','), Replace(b, '\n', ',');
    assert Replace(a + "," + b, '\n', ',') == x + [','] + y;
    assert Replace(a + "\n" + b, '\n', ',') == x + [','] + y;
    SplitConcat(x, ',', y);
    SplitConcat(a, ',', b);
    ItemsConcat(Split(x, ','), Split(y, ','));
    ItemsConcat(Split(a, ','), Split(b, ','));
    AllItemsOfOne(a);
    AllItemsOfOne(b);
    AllItemsOfOne(a + "," + b);
    AllItemsOfOne(a + "\n" + b);
  }

  lemma AllItemsOfOne(raw: string)
    ensures AllItems([raw]) == Items(Parts(raw))
  {
    assert [raw][1..] == [];
  }

  lemma PrintedIsBare(digits: Digits, n: nat)
    requires DigitTable(digits)
    ensures Bare(Printed(n), Spaces()) && IsDecimal(digits, Printed(n))
    ensures ',' !in Printed(n) && '\n' !in Printed(n)
  {
    var s := Printed(n);
    assert s[0] in s && s[|s| - 1] in s;
    forall i | 0 <= i < |s| ensures digits(s[i]).Some? {
      assert s[i] in s;
    }
  }

  lemma {:induction false} JoinedHas(items: seq<string>, sep: char, c: char)
    requires c != sep && forall item | item in items :: c !in item
    ensures c !in Join(items, sep)
  {
    if |items| > 1 {
      JoinedHas(items[1..], sep, c);
      assert items[0] in items;
    }
  }

  // The items of a printed list are the printed ids, in order.
  lemma ItemsOfPrinted(digits: Digits, ids: seq<nat>)
    requires DigitTable(digits)
    ensures Items(Split(Join(PrintedAll(ids), ','), ',')) == PrintedAll(ids)
    ensures '\n' !in Join(PrintedAll(ids), ',')
  {
    var items := PrintedAll(ids);
    forall item | item in items
      ensures ',' !in item && '\n' !in item && item != "" && Bare(item, Spaces())
    {
      var i :| 0 <= i < |items| && items[i] == item;
      PrintedIsBare(digits, ids[i]);
    }
    JoinedHas(items, ',', '\n');
    if items == [] {
      assert Split("", ',') == [""] && [""][1..] == [];
      assert Items([""]) == [];
    } else {
      SplitOfJoin(items, ',');
      ItemsOfBare(items);
    }
  }

  lemma {:induction false} IdsOfPrinted(digits: Digits, ids: seq<nat>)
    requires DigitTable(digits)
    ensures IdsOf(digits, PrintedAll(ids)) == (set x | x in ids)
    ensures Plain(digits, PrintedAll(ids))
  {
    forall item | item in PrintedAll(ids) ensures IsDecimal(digits, item) {
      var i :| 0 <= i < |ids| && PrintedAll(ids)[i] == item;
      PrintedIsBare(digits, ids[i]);
    }
    if ids != [] {
      IdsOfPrinted(digits, ids[1..]);
      assert PrintedAll(ids)[1..] == PrintedAll(ids[1..]);
      PrintedValue(digits, ids[0]);
    }
  }

  lemma {:induction false} ReplaceAbsent(s: string, was: char, becomes: char)
    requires was !in s
    ensures Replace(s, was, becomes) == s
  {
    forall i | 0 <= i < |s| ensures s[i] != was {
      assert s[i] in s;
    }
  }

  lemma OneValue(raw: string)
    requires '\n' !in raw
    ensures AllItems([raw]) == Items(Split(raw, ','))
  {
    ReplaceAbsent(raw, '\n', ',');
    assert [raw][1..] == [];
  }

  // The printer accepts its input exactly when every item is decimal; the parser then reads the
  // printed text as the set of ids the input holds.
  lemma ParseOfBuilt(digits: Digits, rawValues: seq<string>)
    requires DigitTable(digits)
    ensures Built(digits, AllItems(rawValues)).Ok? <==> Plain(digits, AllItems(rawValues))
    ensures Built(digits, AllItems(rawValues)).Ok? ==>
      Parsed(digits, Built(digits, AllItems(rawValues)).value) == Some(Integers(IdsOf(digits, AllItems(rawValues))))
  {
    var ids := IdsOf(digits, AllItems(rawValues));
    var list := Ascending(ids);
    ItemsOfPrinted(digits, list);
    IdsOfPrinted(digits, list);
    DecimalsParse(digits, PrintedAll(list));
    assert (set x | x in list) == ids;
  }

  // The printed text lists the ids in strictly increasing order and is a fixed point of the printer.
  lemma BuildOfBuilt(digits: Digits, rawValues: seq<string>)
    requires DigitTable(digits) && Built(digits, AllItems(rawValues)).Ok?
    ensures var text := Built(digits, AllItems(rawValues)).value;
      && Built(digits, AllItems([text])) == Ok(text)
      && exists list :: Increasing(list) && Items(Split(text, ',')) == PrintedAll(list)
  {
    var ids := IdsOf(digits, AllItems(rawValues));
    var list := Ascending(ids);
    var text := Join(PrintedAll(list), ',');
    ItemsOfPrinted(digits, list);
    IdsOfPrinted(digits, list);
    OneValue(text);
    assert (set x | x in list) == ids;
    assert Increasing(list) && Items(Split(text, ',')) == PrintedAll(list);
  }

  // Who passes: the ids of the input, or everyone when the input holds none.
  lemma BuiltAllows(digits: Digits, rawValues: seq<string>, telegramId: int)
    requires DigitTable(digits) && Built(digits, AllItems(rawValues)).Ok?
    ensures Allowed(digits, Built(digits, AllItems(rawValues)).value, telegramId)
      == Some(AllItems(rawValues) == [] || telegramId in IdsOf(digits, AllItems(rawValues)))
  {
    var items := AllItems(rawValues);
    ParseOfBuilt(digits, rawValues);
    if items != [] {
      assert Value(digits, items[0]) in IdsOf(digits, items);
      assert Value(digits, items[0]) as int in Integers(IdsOf(digits, items));
    }
  }

  // Whatever one comma list the printer accepts, the parser reads as the same ids ...
  lemma ParserAcceptsMore(digits: Digits, text: string)
    requires DigitTable(digits) && '\n' !in text && Built(digits, AllItems([text])).Ok?
    ensures Parsed(digits, text) == Some(Integers(IdsOf(digits, AllItems([text]))))
  {
    OneValue(text);
    DecimalsParse(digits, Items(Split(text, ',')));
  }

  lemma {:induction false} ItemsHold(parts: seq<string>, c: char)
    requires !IsSpace(c)
    ensures (exists item | item in Items(parts) :: c in item) <==> exists part | part in parts :: c in part
  {
    if parts != [] {
      var item, later := Strip(parts[0], Spaces()), Items(parts[1..]);
      ItemsHold(parts[1..], c);
      StripSpares(parts[0], Spaces(), c);
      assert parts == [parts[0]] + parts[1..];
      assert Items(parts) == (if item == "" then [] else [item]) + later;
      if c in item {
        assert item in Items(parts);
      }
    }
  }

  // A mark is in a comma list exactly if it is in one of its items.
  lemma TextHolds(text: string, c: char)
    requires !IsSpace(c) && c != ','
    ensures c in text <==> exists item | item in Items(Split(text, ',')) :: c in item
  {
    JoinOfSplit(text, ',');
    JoinHolds(Split(text, ','), ',', c);
    ItemsHold(Split(text, ','), c);
  }

  predicate Unmarked(s: string) { '+' !in s && '-' !in s && '_' !in s }

  // An integer is written with decimal digits alone exactly if it has no sign and no underscore.
  lemma DecimalIff(digits: Digits, item: string)
    requires DigitTable(digits) && ParseInt(digits, item).Some?
    ensures IsDecimal(digits, item) <==> Unmarked(item)
  {
    if IsDecimal(digits, item) {
      forall i | 0 <= i < |item| ensures item[i] !in "+-_" {
        assert digits(item[i]).Some?;
      }
    }
    if Unmarked(item) {
      assert item[0] in item;
      forall i | 0 <= i < |item| ensures digits(item[i]).Some? {
        assert item[i] in item;
      }
    }
  }

  // ... and of what the parser accepts, the printer accepts exactly the texts without a sign and
  // without an underscore.
  lemma PrinterAcceptsIff(digits: Digits, text: string)
    requires DigitTable(digits) && '\n' !in text && Parsed(digits, text).Some?
    ensures Built(digits, AllItems([text])).Ok? <==> Unmarked(text)
  {
    var items := Items(Split(text, ','));
    OneValue(text);
    ParseOfBuilt(digits, [text]);
    TextHolds(text, '+');
    TextHolds(text, '-');
    TextHolds(text, '_');
    forall item | item in items ensures IsDecimal(digits, item) <==> Unmarked(item) {
      assert !NotAnInt(digits)(item);
      DecimalIff(digits, item);
    }
  }

  lemma PrintedIsNumeral(digits: Digits, n: nat)
    requires DigitTable(digits)
    ensures IsNumeral(digits, Printed(n)) && Value(digits, Printed(n)) == n
    ensures Printed(n)[0] != '+' && Printed(n)[0] != '-'
  {
    var s := Printed(n);
    PrintedValue(digits, n);
    assert s[0] in s;
    forall i | 0 <= i < |s| ensures digits(s[i]).Some? { assert s[i] in s; }
  }

  lemma NumeralOf(digits: Digits, s: string, n: nat)
    requires IsNumeral(digits, s) && s[0] != '+' && s[0] != '-' && Value(digits, s) == n
    ensures ParseInt(digits, s) == Some(n) && ParseInt(digits, "+" + s) == Some(n) && ParseInt(digits, "-" + s) == Some(0 - n)
  {
    assert ("-" + s)[1..] == s && ("+" + s)[1..] == s;
  }

  // A printed number is read as it is, and with a sign before it as that number with its sign.
  lemma SignedParses(digits: Digits, n: nat)
    requires DigitTable(digits)
    ensures ParseInt(digits, Printed(n)) == Some(n) && ParseInt(digits, "+" + Printed(n)) == Some(n)
    ensures ParseInt(digits, "-" + Printed(n)) == Some(0 - n)
  {
    var s := Printed(n);
    PrintedIsNumeral(digits, n);
    NumeralOf(digits, s, n);
  }

  // Underscores stand between digits: not first, not last, not next to each other.
  lemma NumeralIff(digits: Digits, s: string)
    requires DigitTable(digits)
    ensures IsNumeral(digits, s) <==>
              && s != "" && digits(s[0]).Some? && digits(s[|s| - 1]).Some?
              && (forall i | 0 <= i < |s| :: digits(s[i]).Some? || s[i] == '_')
              && (forall i | 0 <= i < |s| - 1 :: s[i] != '_' || s[i + 1] != '_')
  {
    assert digits('_').None?;
    if s != "" && digits(s[|s| - 1]).Some? && (forall i | 0 <= i < |s| :: digits(s[i]).Some? || s[i] == '_')
       && (forall i | 0 <= i < |s| - 1 :: s[i] != '_' || s[i + 1] != '_') {
      forall i | 0 <= i < |s| && s[i] == '_' ensures i + 1 < |s| && digits(s[i + 1]).Some? {
        if i + 1 < |s| { assert s[i] != '_' || s[i + 1] != '_'; }
      }
    }
  }

  // Both kinds of marks occur.
  lemma MarkedIdsAreParsedOnly(digits: Digits)
    requires DigitTable(digits)
    ensures Parsed(digits, "-7") == Some({-7}) && Built(digits, AllItems(["-7"])) == Err("-7")
    ensures Parsed(digits, "1_0") == Some({10}) && Built(digits, AllItems(["1_0"])) == Err("1_0")
  {
    OneValue("-7");
    ItemsOfOne("-7");
    MinusSeven(digits, "-7");
    OneValue("1_0");
    ItemsOfOne("1_0");
    OneUnderscoreZero(digits, "1_0");
  }

  lemma ItemsOfOne(item: string)
    requires item != "" && ',' !in item && Bare(item, Spaces())
    ensures Items(Split(item, ',')) == [item]
  {
    SplitOne(item, ',');
    ItemsOfBare([item]);
  }

  lemma OneItem(digits: Digits, item: string, id: int)
    requires ParseInt(digits, item) == Some(id) && !IsDecimal(digits, item)
    ensures ParsedItems(digits, [item]) == Some({id}) && Built(digits, [item]) == Err(item)
  {
    assert NotDecimal(digits)(item) && !NotAnInt(digits)(item);
    assert [item][1..] == [];
    assert IntsOf(digits, [item]) == {id};
    assert Find([item], NotAnInt(digits)) == None;
  }

  lemma MinusSeven(digits: Digits, item: string)
    requires DigitTable(digits) && item == "-7"
    ensures ParsedItems(digits, [item]) == Some({-7}) && Built(digits, [item]) == Err(item)
  {
    assert item[1..] == "7" && "7"[..0] == "";
    assert digits(item[0]).None? && digits('7') == Some(7);
    assert Value(digits, "7") == 7;
    OneItem(digits, item, -7);
  }

  lemma OneUnderscoreZero(digits: Digits, item: string)
    requires DigitTable(digits) && item == "1_0"
    ensures ParsedItems(digits, [item]) == Some({10}) && Built(digits, [item]) == Err(item)
  {
    assert item[..2] == "1_" && "1_"[..1] == "1" && "1"[..0] == "";
    assert digits('1') == Some(1) && digits('_').None? && digits('0') == Some(0);
    assert Value(digits, "1") == 1 && Value(digits, "1_") == 1 && Value(digits, item) == 10;
    OneItem(digits, item, 10);
  }
}

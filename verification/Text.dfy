/** The Python string operations the scripts are written with: split, join, strip, splitlines. */
module Text {
  import opened Prelude

  // str.isspace on one character.
  predicate IsSpace(c: char) {
    || '\U{9}' <= c <= '\U{d}'
    || '\U{1c}' <= c <= ' '
    || c == '\U{85}' || c == '\U{a0}' || c == '\U{1680}'
    || '\U{2000}' <= c <= '\U{200a}'
    || c == '\U{2028}' || c == '\U{2029}' || c == '\U{202f}' || c == '\U{205f}' || c == '\U{3000}'
  }

  function Spaces(): char -> bool { (c: char) => IsSpace(c) }

  // ---- split and join ----

  function Split(s: string, sep: char): (r: seq<string>)
    ensures r != []
  {
    if s == "" then [""]
    else
      var rest := Split(s[1..], sep);
      if s[0] == sep then [""] + rest else [[s[0]] + rest[0]] + rest[1..]
  }

  function Join(items: seq<string>, sep: char): string {
    if items == [] then ""
    else if |items| == 1 then items[0]
    else items[0] + [sep] + Join(items[1..], sep)
  }

  lemma {:induction false} SplitOne(item: string, sep: char)
    requires sep !in item
    ensures Split(item, sep) == [item]
  {
    if item != "" {
      SplitOne(item[1..], sep);
      assert [item[0]] + item[1..] == item;
    }
  }

  lemma {:induction false} SplitFirst(item: string, sep: char, rest: string)
    requires sep !in item
    ensures Split(item + [sep] + rest, sep) == [item] + Split(rest, sep)
  {
    var s := item + [sep] + rest;
    if item == "" {
      assert s[1..] == rest;
    } else {
      SplitFirst(item[1..], sep, rest);
      assert s[1..] == item[1..] + [sep] + rest;
      assert [item[0]] + item[1..] == item;
    }
  }

  lemma SplitCons(c: char, s: string, sep: char)
    ensures Split([c] + s, sep) ==
              if c == sep then [""] + Split(s, sep) else [[c] + Split(s, sep)[0]] + Split(s, sep)[1..]
  {
    assert ([c] + s)[1..] == s;
  }

  lemma ConcatAfterFirst<T>(x: T, a: seq<T>, b: seq<T>)
    requires a != []
    ensures [x] + (a + b)[1..] == [x] + a[1..] + b
  {}

  // A separator ends one list of items and starts the next.
  lemma {:induction false} SplitConcat(a: string, sep: char, b: string)
    ensures Split(a + [sep] + b, sep) == Split(a, sep) + Split(b, sep)
  {
    if a == "" {
      assert a + [sep] + b == [sep] + b;
      SplitCons(sep, b, sep);
    } else {
      var c, rest := a[0], a[1..];
      assert a + [sep] + b == [c] + (rest + [sep] + b) && a == [c] + rest;
      SplitConcat(rest, sep, b);
      SplitCons(c, rest + [sep] + b, sep);
      SplitCons(c, rest, sep);
      ConcatAssociative([""], Split(rest, sep), Split(b, sep));
      ConcatAfterFirst([c] + Split(rest, sep)[0], Split(rest, sep), Split(b, sep));
    }
  }

  // The items are read back when none of them holds the separator.
  lemma {:induction false} SplitOfJoin(items: seq<string>, sep: char)
    requires items != [] && forall item | item in items :: sep !in item
    ensures Split(Join(items, sep), sep) == items
  {
    if |items| == 1 {
      SplitOne(items[0], sep);
    } else {
      SplitOfJoin(items[1..], sep);
      SplitFirst(items[0], sep, Join(items[1..], sep));
    }
  }

  // A text is split into the only items without separators that join to it.
  lemma {:induction false} JoinOfSplit(s: string, sep: char)
    ensures Join(Split(s, sep), sep) == s
    ensures forall item | item in Split(s, sep) :: sep !in item
  {
    if s != "" {
      var rest := Split(s[1..], sep);
      JoinOfSplit(s[1..], sep);
      assert [s[0]] + s[1..] == s;
      if s[0] == sep {
        assert ([""] + rest)[1..] == rest;
        assert "" + [sep] + s[1..] == s;
      } else {
        var head := [s[0]] + rest[0];
        assert ([head] + rest[1..])[1..] == rest[1..];
        assert |rest| > 1 ==> head + [sep] + Join(rest[1..], sep) == [s[0]] + (rest[0] + [sep] + Join(rest[1..], sep));
      }
    }
  }

  // str.replace of one character by another.
  function Replace(s: string, was: char, becomes: char): (r: string)
    ensures |r| == |s|
    ensures forall i | 0 <= i < |s| :: r[i] == if s[i] == was then becomes else s[i]
  {
    seq(|s|, i requires 0 <= i < |s| => if s[i] == was then becomes else s[i])
  }

  // ---- strip ----

  function StripLeft(s: string, drop: char -> bool): (r: string)
    ensures |r| <= |s|
  {
    if s != "" && drop(s[0]) then StripLeft(s[1..], drop) else s
  }

  function StripRight(s: string, drop: char -> bool): (r: string)
    ensures |r| <= |s|
  {
    if s != "" && drop(s[|s| - 1]) then StripRight(s[..|s| - 1], drop) else s
  }

  function Strip(s: string, drop: char -> bool): (r: string)
    ensures |r| <= |s|
  {
    StripRight(StripLeft(s, drop), drop)
  }

  predicate Bare(s: string, drop: char -> bool) {
    s == "" || (!drop(s[0]) && !drop(s[|s| - 1]))
  }

  lemma {:induction false} StripLeftDrops(s: string, drop: char -> bool)
    ensures StripLeft(s, drop) == "" || !drop(StripLeft(s, drop)[0])
  {
    if s != "" && drop(s[0]) {
      StripLeftDrops(s[1..], drop);
    }
  }

  lemma {:induction false} StripRightDrops(s: string, drop: char -> bool)
    ensures StripRight(s, drop) <= s
    ensures StripRight(s, drop) == "" || !drop(StripRight(s, drop)[|StripRight(s, drop)| - 1])
  {
    if s != "" && drop(s[|s| - 1]) {
      StripRightDrops(s[..|s| - 1], drop);
    }
  }

  // What is left is bare, and only a bare text is left alone.
  lemma StripBares(s: string, drop: char -> bool)
    ensures Bare(Strip(s, drop), drop)
    ensures Strip(s, drop) == s <==> Bare(s, drop)
  {
    StripLeftDrops(s, drop);
    StripRightDrops(StripLeft(s, drop), drop);
  }

  // Stripping removes characters and adds none.
  lemma {:induction false} StripLeftKeeps(s: string, drop: char -> bool, c: char)
    requires c !in s
    ensures c !in StripLeft(s, drop)
  {
    if s != "" && drop(s[0]) {
      StripLeftKeeps(s[1..], drop, c);
    }
  }

  lemma StripKeeps(s: string, drop: char -> bool, c: char)
    requires c !in s
    ensures c !in Strip(s, drop)
  {
    StripLeftKeeps(s, drop, c);
    StripRightDrops(StripLeft(s, drop), drop);
  }

  // Characters that are not stripped all stay.
  lemma {:induction false} StripLeftSpares(s: string, drop: char -> bool, c: char)
    requires c in s && !drop(c)
    ensures c in StripLeft(s, drop)
  {
    if drop(s[0]) {
      assert c in s[1..];
      StripLeftSpares(s[1..], drop, c);
    }
  }

  lemma {:induction false} StripRightSpares(s: string, drop: char -> bool, c: char)
    requires c in s && !drop(c)
    ensures c in StripRight(s, drop)
  {
    if drop(s[|s| - 1]) {
      assert s == s[..|s| - 1] + [s[|s| - 1]];
      StripRightSpares(s[..|s| - 1], drop, c);
    }
  }

  lemma StripSpares(s: string, drop: char -> bool, c: char)
    requires !drop(c)
    ensures c in Strip(s, drop) <==> c in s
  {
    if c in s {
      StripLeftSpares(s, drop, c);
      StripRightSpares(StripLeft(s, drop), drop, c);
    } else {
      StripKeeps(s, drop, c);
    }
  }

  lemma {:induction false} JoinHolds(items: seq<string>, sep: char, c: char)
    requires c != sep
    ensures c in Join(items, sep) <==> exists item | item in items :: c in item
  {
    if |items| > 1 {
      JoinHolds(items[1..], sep, c);
      assert items == [items[0]] + items[1..];
    } else if |items| == 1 {
      assert items[0] in items;
    }
  }

  lemma {:induction false} StripLeftAcross(s: string, drop: char -> bool, last: char)
    requires drop(last)
    ensures StripLeft(s + [last], drop) == if StripLeft(s, drop) == "" then "" else StripLeft(s, drop) + [last]
  {
    if s == "" {
      assert s + [last] == [last] && [last][1..] == "";
    } else if drop(s[0]) {
      StripLeftAcross(s[1..], drop, last);
      assert (s + [last])[1..] == s[1..] + [last];
    }
  }

  // Wrapping a text in dropped characters does not show after stripping.
  lemma StripWrapped(s: string, drop: char -> bool, c: char)
    requires drop(c)
    ensures Strip([c] + s + [c], drop) == Strip(s, drop)
  {
    assert ([c] + s + [c])[1..] == s + [c];
    StripLeftAcross(s, drop, c);
    var left := StripLeft(s, drop);
    if left != "" {
      assert (left + [c])[..|left|] == left;
    }
  }

  predicate AllDropped(s: string, drop: char -> bool) { forall i | 0 <= i < |s| :: drop(s[i]) }

  lemma {:induction false} StripLeftPadded(left: string, s: string, drop: char -> bool)
    requires AllDropped(left, drop) && (s == "" || !drop(s[0]))
    ensures StripLeft(left + s, drop) == s
  {
    if left == "" {
      assert left + s == s;
    } else {
      StripLeftPadded(left[1..], s, drop);
      assert (left + s)[1..] == left[1..] + s;
    }
  }

  lemma {:induction false} StripRightPadded(s: string, right: string, drop: char -> bool)
    requires AllDropped(right, drop) && (s == "" || !drop(s[|s| - 1]))
    ensures StripRight(s + right, drop) == s
  {
    if right == "" {
      assert s + right == s;
    } else {
      StripRightPadded(s, right[..|right| - 1], drop);
      assert (s + right)[..|s + right| - 1] == s + right[..|right| - 1];
    }
  }

  // What stands between dropped characters, and is bare, is what is left.
  lemma StripPadded(left: string, s: string, right: string, drop: char -> bool)
    requires AllDropped(left, drop) && AllDropped(right, drop) && Bare(s, drop)
    ensures Strip(left + s + right, drop) == s
  {
    if s == "" {
      assert left + s + right == (left + right) + "";
      StripLeftPadded(left + right, "", drop);
    } else {
      assert left + s + right == left + (s + right);
      StripLeftPadded(left, s + right, drop);
      StripRightPadded(s, right, drop);
    }
  }

  // ---- splitlines ----

  predicate IsBreak(c: char) {
    || '\U{a}' <= c <= '\U{d}' || '\U{1c}' <= c <= '\U{1e}'
    || c == '\U{85}' || c == '\U{2028}' || c == '\U{2029}'
  }

  predicate OneLine(s: string) { forall c | c in s :: !IsBreak(c) }

  function LineLength(s: string): (n: nat)
    ensures n <= |s| && OneLine(s[..n]) && (n < |s| ==> IsBreak(s[n]))
  {
    if s == "" || IsBreak(s[0]) then 0
    else
      assert s[..1 + LineLength(s[1..])] == [s[0]] + s[1..][..LineLength(s[1..])];
      1 + LineLength(s[1..])
  }

  // A carriage return followed by a line feed is one break; a break at the end starts no line.
  function Lines(s: string): (r: seq<string>)
    ensures forall line | line in r :: OneLine(line)
    decreases |s|
  {
    if s == "" then []
    else
      var n := LineLength(s);
      if n == |s| then [s]
      else [s[..n]] + Lines(s[n + (if s[n] == '\r' && n + 1 < |s| && s[n + 1] == '\n' then 2 else 1)..])
  }

  lemma {:induction false} LineLengthIs(line: string, rest: string)
    requires OneLine(line)
    ensures LineLength(line + "\n" + rest) == |line|
  {
    var s := line + "\n" + rest;
    if line == "" {
      assert s[0] == '\n';
    } else {
      assert s[1..] == line[1..] + "\n" + rest;
      assert s[0] == line[0] && line[0] in line;
      LineLengthIs(line[1..], rest);
    }
  }

  lemma LinesFirst(line: string, rest: string)
    requires OneLine(line)
    ensures Lines(line + "\n" + rest) == [line] + Lines(rest)
  {
    var s := line + "\n" + rest;
    LineLengthIs(line, rest);
    assert s[|line|] == '\n';
    assert s[..|line|] == line && s[|line| + 1..] == rest;
  }
}

/**
 Documents, how they are written, and what the scanner makes of the written text. White space may
 stand wherever JSON allows it. Outside the grammar are braces and brackets in names and strings (the
 scanner counts them), exponents, and strings that end in a backslash (it takes the closing quote for
 an escaped one).
 */
module JsonDocument {
  import opened JsonScanner
  import opened Overwriting

  datatype Json =
    | Text(text: string)
    | Numeral(text: string)
    | Truth(text: string)
    | Nothing(text: string)
    | Arr(items: Items, blank: string)
    | Obj(members: Members, blank: string)

  datatype Items = NoItem | Item(before: string, value: Json, after: string, more: Items)

  datatype Members =
    | NoMember
    | Member(before: string, key: string, afterKey: string, beforeValue: string, value: Json, after: string, rest: Members)

  // ---------------------------------------------------------------- the grammar

  predicate Blank(s: string) { forall i :: 0 <= i < |s| ==> s[i] in " \t\n\r" }

  /** No mark that the scanner counts. */
  predicate Unmarked(s: string) { forall i :: 0 <= i < |s| ==> s[i] !in "{}[]" }

  /** A quote inside a string has a backslash before it, and the closing quote has none. */
  predicate Escaped(s: string) {
    && (forall i :: 0 <= i < |s| && s[i] == '"' ==> i > 0 && s[i - 1] == '\\')
    && (s != "" ==> s[|s| - 1] != '\\')
  }

  predicate NumeralText(s: string) {
    && s != "" && (s[0] == '-' || Digit(s[0]))
    && forall i :: 1 <= i < |s| ==> Digit(s[i]) || s[i] == '.'
  }

  predicate Good(v: Json) {
    match v
    case Text(s) => Unmarked(s) && Escaped(s)
    case Numeral(s) => NumeralText(s)
    case Truth(s) => s in {"true", "TRUE", "false", "FALSE"}
    case Nothing(s) => s in {"null", "NULL"}
    case Arr(items, blank) => GoodItems(items) && Blank(blank)
    case Obj(members, blank) => GoodMembers(members) && Blank(blank)
  }

  predicate GoodItems(items: Items) {
    match items
    case NoItem => true
    case Item(before, value, after, more) => Blank(before) && Good(value) && Blank(after) && GoodItems(more)
  }

  predicate GoodMembers(ms: Members) {
    match ms
    case NoMember => true
    case Member(before, key, afterKey, beforeValue, value, after, rest) =>
      && Blank(before) && Unmarked(key) && '"' !in key && Blank(afterKey) && Blank(beforeValue)
      && Good(value) && Blank(after) && GoodMembers(rest)
  }

  // ---------------------------------------------------------------- writing

  function Print(v: Json): string {
    match v
    case Text(s) => "\"" + (s + "\"")
    case Numeral(s) => s
    case Truth(s) => s
    case Nothing(s) => s
    case Arr(items, blank) => "[" + (PrintItems(items) + (blank + "]"))
    case Obj(members, blank) => "{" + (PrintMembers(members) + (blank + "}"))
  }

  function PrintItems(items: Items): string {
    match items
    case NoItem => ""
    case Item(before, value, after, more) =>
      before + (Print(value) + (after + ((if more.NoItem? then "" else ",") + PrintItems(more))))
  }

  /** A member up to its value. */
  function Head(before: string, key: string, afterKey: string, beforeValue: string): string {
    before + ("\"" + (key + ("\"" + (afterKey + (":" + beforeValue)))))
  }

  function Comma(rest: Members): string { if rest.NoMember? then "" else "," }

  function PrintMembers(ms: Members): string {
    match ms
    case NoMember => ""
    case Member(before, key, afterKey, beforeValue, value, after, rest) =>
      Head(before, key, afterKey, beforeValue) + (Print(value) + ((after + Comma(rest)) + PrintMembers(rest)))
  }

  /** What a caller gets to see of a value: a string without its quotes, anything else as written. */
  function Shown(v: Json): string { if v.Text? then v.text else Print(v) }

  function KindIs(v: Json): Kind {
    match v
    case Text(_) => String
    case Numeral(_) => Number
    case Truth(_) => Boolean
    case Nothing(_) => Null
    case Arr(_, _) => Array
    case Obj(_, _) => Object
  }

  // ---------------------------------------------------------------- matching marks

  /** A text that leaves the nesting depth as it finds it. */
  ghost predicate Even(open: char, close: char, b: string) {
    forall t: string, depth: nat {:trigger Matching(open, close, b + t, depth)} ::
      Matching(open, close, b + t, depth) == Plus(|b|, Matching(open, close, t, depth))
  }

  lemma {:induction false} EvenPlain(open: char, close: char, b: string)
    requires open !in b && close !in b
    ensures Even(open, close, b)
  {
    forall t: string, depth: nat
      ensures Matching(open, close, b + t, depth) == Plus(|b|, Matching(open, close, t, depth))
    {
      if b == "" {
        assert b + t == t;
      } else {
        EvenPlain(open, close, b[1..]);
        assert b + t == [b[0]] + (b[1..] + t);
        assert (b + t)[1..] == b[1..] + t && (b + t)[0] in b;
      }
    }
  }

  lemma EvenCat(open: char, close: char, a: string, b: string)
    requires Even(open, close, a) && Even(open, close, b)
    ensures Even(open, close, a + b)
  {
    hide Matching;
    forall t: string, depth: nat
      ensures Matching(open, close, (a + b) + t, depth) == Plus(|a + b|, Matching(open, close, t, depth))
    {
      assert (a + b) + t == a + (b + t);
    }
  }

  lemma EvenWrapped(open: char, close: char, b: string)
    requires Even(open, close, b) && open != close
    ensures Even(open, close, [open] + (b + [close]))
  {
    var w := [open] + (b + [close]);
    forall t: string, depth: nat
      ensures Matching(open, close, w + t, depth) == Plus(|w|, Matching(open, close, t, depth))
    {
      assert w + t == [open] + (b + ([close] + t));
      MatchingMark(open, close, open, b + ([close] + t), depth);
      MatchingMark(open, close, close, t, depth + 1);
      hide Matching;
    }
  }

  lemma MatchingMark(open: char, close: char, c: char, t: string, depth: nat)
    requires c == close ==> depth > 0
    ensures Matching(open, close, [c] + t, depth)
         == Plus(1, Matching(open, close, t, if c == close then depth - 1 else if c == open then depth + 1 else depth))
  {
    assert ([c] + t)[1..] == t;
  }

  predicate Marks(open: char, close: char) { (open == '{' && close == '}') || (open == '[' && close == ']') }

  lemma BlankPlain(s: string)
    requires Blank(s)
    ensures Unmarked(s) && '"' !in s && ':' !in s
    ensures forall i :: 0 <= i < |s| ==> KindOf(s[i]).None?
  {
  }

  lemma EvenUnmarked(open: char, close: char, s: string)
    requires Marks(open, close) && Unmarked(s)
    ensures Even(open, close, s)
  {
    EvenPlain(open, close, s);
  }

  /** A written array or object: its own marks pair up, and other marks do not count. */
  lemma EvenNested(open: char, close: char, left: char, right: char, b: string, blank: string)
    requires Marks(open, close) && Marks(left, right) && Blank(blank) && Even(open, close, b)
    ensures Even(open, close, [left] + (b + (blank + [right])))
  {
    BlankPlain(blank);
    hide Even;
    EvenUnmarked(open, close, blank);
    if left == open {
      EvenCat(open, close, b, blank);
      EvenWrapped(open, close, b + blank);
      assert (b + blank) + [right] == b + (blank + [right]);
    } else {
      EvenPlain(open, close, [left]);
      EvenPlain(open, close, [right]);
      EvenCat(open, close, blank, [right]);
      EvenCat(open, close, b, blank + [right]);
      EvenCat(open, close, [left], b + (blank + [right]));
    }
  }

  lemma {:induction false} EvenValue(open: char, close: char, v: Json)
    requires Marks(open, close) && Good(v)
    ensures Even(open, close, Print(v))
    decreases v
  {
    hide Even;
    match v
    case Arr(items, blank) =>
      EvenItems(open, close, items);
      EvenNested(open, close, '[', ']', PrintItems(items), blank);
    case Obj(members, blank) =>
      EvenMembers(open, close, members);
      EvenNested(open, close, '{', '}', PrintMembers(members), blank);
    case _ =>
      UnmarkedLeaf(v);
      EvenUnmarked(open, close, Print(v));
  }

  lemma UnmarkedLeaf(v: Json)
    requires Good(v) && !v.Arr? && !v.Obj?
    ensures Unmarked(Print(v))
  {
  }

  lemma {:induction false} EvenItems(open: char, close: char, items: Items)
    requires Marks(open, close) && GoodItems(items)
    ensures Even(open, close, PrintItems(items))
    decreases items
  {
    hide Even;
    match items
    case NoItem => EvenUnmarked(open, close, "");
    case Item(before, value, after, more) =>
      EvenValue(open, close, value);
      EvenItems(open, close, more);
      BlankPlain(before);
      BlankPlain(after);
      hide Good, GoodItems;
      var comma := if more.NoItem? then "" else ",";
      EvenUnmarked(open, close, before);
      EvenUnmarked(open, close, after);
      EvenUnmarked(open, close, comma);
      EvenCat(open, close, comma, PrintItems(more));
      EvenCat(open, close, after, comma + PrintItems(more));
      EvenCat(open, close, Print(value), after + (comma + PrintItems(more)));
      EvenCat(open, close, before, Print(value) + (after + (comma + PrintItems(more))));
  }

  lemma {:induction false} EvenMembers(open: char, close: char, ms: Members)
    requires Marks(open, close) && GoodMembers(ms)
    ensures Even(open, close, PrintMembers(ms))
    decreases ms
  {
    hide Even;
    match ms
    case NoMember => EvenUnmarked(open, close, "");
    case Member(before, key, afterKey, beforeValue, value, after, rest) =>
      EvenValue(open, close, value);
      EvenMembers(open, close, rest);
      var (head, sep, tail) := (Head(before, key, afterKey, beforeValue), after + Comma(rest), PrintMembers(rest));
      UnmarkedHead(before, key, afterKey, beforeValue);
      BlankPlain(after);
      hide Good, GoodMembers, Head;
      EvenUnmarked(open, close, head);
      EvenUnmarked(open, close, sep);
      EvenCat(open, close, sep, tail);
      EvenCat(open, close, Print(value), sep + tail);
      EvenCat(open, close, head, Print(value) + (sep + tail));
  }

  lemma UnmarkedHead(before: string, key: string, afterKey: string, beforeValue: string)
    requires Blank(before) && Unmarked(key) && Blank(afterKey) && Blank(beforeValue)
    ensures Unmarked(Head(before, key, afterKey, beforeValue))
  {
    BlankPlain(before);
    BlankPlain(afterKey);
    BlankPlain(beforeValue);
    UnmarkedCat(":", beforeValue);
    UnmarkedCat(afterKey, ":" + beforeValue);
    UnmarkedCat("\"", afterKey + (":" + beforeValue));
    UnmarkedCat(key, "\"" + (afterKey + (":" + beforeValue)));
    UnmarkedCat("\"", key + ("\"" + (afterKey + (":" + beforeValue))));
    UnmarkedCat(before, "\"" + (key + ("\"" + (afterKey + (":" + beforeValue)))));
  }

  lemma UnmarkedCat(a: string, b: string)
    requires Unmarked(a) && Unmarked(b)
    ensures Unmarked(a + b)
  {
  }

  // ---------------------------------------------------------------- one value

  lemma {:induction false} QuotedText(s: string, n: nat, tail: string, last: char, len: nat)
    requires Escaped(s) && n <= |s| && len <= n
    requires last == (if n == 0 then '"' else s[n - 1]) || (0 < n < |s| && last == s[n] && s[n - 1] == '"') ||
             (n == |s| && last == '"')
    ensures Quoted(s[n..] + ("\"" + tail), n, last, len) == |s|
    decreases |s| - n
  {
    var t := s[n..] + ("\"" + tail);
    if n < |s| {
      assert t[0] == s[n] && t[1..] == s[n + 1..] + ("\"" + tail);
      if s[n] == '"' {
        QuotedText(s, n + 1, tail, First(t[1..]), n);
      } else {
        QuotedText(s, n + 1, tail, s[n], len);
      }
    }
  }

  lemma {:induction false} NumericText(s: string, t: string)
    requires forall i :: 0 <= i < |s| ==> Digit(s[i]) || s[i] == '.'
    requires t != "" && !Digit(t[0]) && t[0] != '.'
    ensures Numeric(s + t) == |s|
  {
    if s == "" {
      assert s + t == t;
    } else {
      assert (s + t)[1..] == s[1..] + t;
      NumericText(s[1..], t);
    }
  }

  /** The pointer to a value: behind the opening quote of a string. */
  function Body(v: Json): string { if v.Text? then v.text + "\"" else Print(v) }

  /** A text that ends a number. */
  predicate Separates(tail: string) { tail != "" && !Digit(tail[0]) && tail[0] != '.' }

  lemma NestedLength(left: char, right: char, kind: Kind, inner: string, tail: string)
    requires Marks(left, right) && kind == (if left == '{' then Object else Array)
    requires Even(left, right, inner)
    ensures ValueLength(kind, ([left] + (inner + [right])) + tail) == |inner| + 2
  {
    var t := ([left] + (inner + [right])) + tail;
    assert t[1..] == inner + ([right] + tail);
    assert Matching(left, right, [right] + tail, 0) == 0;
  }

  lemma Measured(v: Json, tail: string)
    requires Good(v) && Separates(tail)
    ensures ValueLength(KindIs(v), Body(v) + tail) == |Shown(v)|
    ensures (Body(v) + tail)[..|Shown(v)|] == Shown(v)
  {
    assert Shown(v) <= Body(v);
    match v
    case Text(s) => MeasuredText(s, tail);
    case Numeral(s) => MeasuredNumeral(s, tail);
    case Arr(items, blank) =>
      EvenItems('[', ']', items);
      MeasuredNested('[', ']', Array, PrintItems(items), blank, tail);
    case Obj(members, blank) =>
      EvenMembers('{', '}', members);
      MeasuredNested('{', '}', Object, PrintMembers(members), blank, tail);
    case _ => MeasuredWord(v, tail);
  }

  lemma MeasuredText(s: string, tail: string)
    requires Escaped(s)
    ensures ValueLength(String, (s + "\"") + tail) == |s|
  {
    assert (s + "\"") + tail == s[0..] + ("\"" + tail);
    QuotedText(s, 0, tail, '"', 0);
  }

  lemma MeasuredNumeral(s: string, tail: string)
    requires NumeralText(s) && Separates(tail)
    ensures ValueLength(Number, s + tail) == |s|
  {
    var digits := s[1..];
    assert (s + tail)[1..] == digits + tail;
    assert forall i :: 0 <= i < |digits| ==> digits[i] == s[i + 1];
    NumericText(digits, tail);
  }

  lemma MeasuredWord(v: Json, tail: string)
    requires Good(v) && (v.Truth? || v.Nothing?)
    ensures ValueLength(KindIs(v), v.text + tail) == |v.text|
  {
    var t := v.text + tail;
    assert v.text <= t;
    assert t[0] == v.text[0] && t[1] == v.text[1];
  }

  lemma MeasuredNested(left: char, right: char, kind: Kind, b: string, blank: string, tail: string)
    requires Marks(left, right) && kind == (if left == '{' then Object else Array)
    requires Even(left, right, b) && Blank(blank)
    ensures var w := [left] + (b + (blank + [right])); ValueLength(kind, w + tail) == |w|
  {
    EvenInner(left, right, b, blank);
    NestedLength(left, right, kind, b + blank, tail);
    assert (b + blank) + [right] == b + (blank + [right]);
  }

  lemma EvenInner(open: char, close: char, b: string, blank: string)
    requires Marks(open, close) && Even(open, close, b) && Blank(blank)
    ensures Even(open, close, b + blank)
  {
    BlankPlain(blank);
    EvenUnmarked(open, close, blank);
    EvenCat(open, close, b, blank);
  }

  // ---------------------------------------------------------------- one member

  lemma {:induction false} StrChrSkip(junk: string, t: string, c: char)
    requires c !in junk && t != "" && t[0] == c
    ensures StrChr(junk + t, c) == Some(t)
  {
    if junk == "" {
      assert junk + t == t;
    } else {
      assert (junk + t)[1..] == junk[1..] + t;
      StrChrSkip(junk[1..], t, c);
    }
  }

  lemma {:induction false} ValueStartSkip(junk: string, t: string)
    requires forall i :: 0 <= i < |junk| ==> KindOf(junk[i]).None?
    requires t != "" && KindOf(t[0]).Some?
    ensures ValueStart(junk + t) == Some(t)
  {
    if junk == "" {
      assert junk + t == t;
    } else {
      assert (junk + t)[1..] == junk[1..] + t;
      ValueStartSkip(junk[1..], t);
    }
  }

  /** The value at the end of a member's text. */
  lemma EntryAtValue(key: string, beforeValue: string, v: Json, tail: string)
    requires Blank(beforeValue) && Good(v) && Separates(tail)
    ensures EntryAt(key, ":" + (beforeValue + (Print(v) + tail))) == Some(Entry(key, Body(v) + tail, |Shown(v)|, KindIs(v)))
  {
    var t := Print(v) + tail;
    ValueStartAfter(beforeValue, v, tail);
    FirstOfValue(v, tail);
    Measured(v, tail);
    hide *;
    EntryAtIs(key, ":" + (beforeValue + t), t, KindIs(v));
  }

  lemma ValueStartAfter(beforeValue: string, v: Json, tail: string)
    requires Blank(beforeValue) && Good(v)
    ensures ValueStart(":" + (beforeValue + (Print(v) + tail))) == Some(Print(v) + tail)
  {
    ColonBlank(beforeValue);
    FirstOfValue(v, tail);
    hide *;
    var t := Print(v) + tail;
    ValueStartSkip(":" + beforeValue, t);
    Associate(":", beforeValue, t);
  }

  lemma NotIn(c: char, a: string, b: string)
    requires c !in a && c !in b
    ensures c !in a + b
  {
  }

  lemma ColonBlank(blank: string)
    requires Blank(blank)
    ensures var s := ":" + blank; forall i :: 0 <= i < |s| ==> KindOf(s[i]).None?
  {
    BlankPlain(blank);
    assert KindOf(':').None?;
    hide KindOf, Blank;
  }

  lemma EntryAtIs(key: string, after: string, at: string, kind: Kind)
    requires at != "" && ValueStart(after) == Some(at) && KindOf(at[0]) == Some(kind)
    ensures var v := if kind.String? then at[1..] else at;
            EntryAt(key, after) == Some(Entry(key, v, ValueLength(kind, v), kind))
  {
    hide ValueStart, KindOf, ValueLength;
  }

  lemma FirstOfValue(v: Json, tail: string)
    requires Good(v)
    ensures var t := Print(v) + tail;
            && t != "" && KindOf(t[0]) == Some(KindIs(v))
            && (if KindIs(v).String? then t[1..] else t) == Body(v) + tail
  {
  }

  /** The text after a name. */
  lemma NextMember(junk: string, before: string, key: string, afterKey: string, beforeValue: string, v: Json, tail: string)
    requires '"' !in junk && Blank(before) && '"' !in key && Blank(afterKey) && Blank(beforeValue) && Good(v)
    requires Separates(tail)
    ensures Next(junk + (Head(before, key, afterKey, beforeValue) + (Print(v) + tail)))
         == Some(Entry(key, Body(v) + tail, |Shown(v)|, KindIs(v)))
  {
    var t4 := ":" + (beforeValue + (Print(v) + tail));
    var t3 := "\"" + (afterKey + t4);
    var t2 := key + t3;
    var t1 := "\"" + t2;
    HeadRegrouped(before, key, afterKey, beforeValue, Print(v) + tail);
    BlankPlain(before);
    BlankPlain(afterKey);
    hide *;
    Associate(junk, before, t1);
    NotIn('"', junk, before);
    StrChrSkip(junk + before, t1, '"');
    StrChrSkip(key, t3, '"');
    Associate("\"", afterKey, t4);
    NotIn(':', "\"", afterKey);
    StrChrSkip("\"" + afterKey, t4, ':');
    EntryAtValue(key, beforeValue, v, tail);
    NextIs(junk + (before + t1), t2, key, t3, t4);
  }

  lemma HeadRegrouped(before: string, key: string, afterKey: string, beforeValue: string, t: string)
    ensures Head(before, key, afterKey, beforeValue) + t
         == before + ("\"" + (key + ("\"" + (afterKey + (":" + (beforeValue + t))))))
  {
    var h4 := ":" + beforeValue;
    var h3 := afterKey + h4;
    var h2 := "\"" + h3;
    var h1 := key + h2;
    assert h4 + t == ":" + (beforeValue + t);
    assert h3 + t == afterKey + (h4 + t);
    assert h2 + t == "\"" + (h3 + t);
    assert h1 + t == key + (h2 + t);
    assert ("\"" + h1) + t == "\"" + (h1 + t);
  }

  lemma NextIs(str: string, name: string, key: string, close: string, colon: string)
    requires StrChr(str, '"') == Some("\"" + name) && name == key + close
    requires StrChr(name, '"') == Some(close) && StrChr(close, ':') == Some(colon)
    ensures Next(str) == EntryAt(key, colon)
  {
    assert ("\"" + name)[1..] == name;
    assert name[..|name| - |close|] == key;
  }

  /** Texts that the scanner's pointer leaves: they end right behind the opening quote of a value. */
  lemma CursorLeavesExample(key: string)
    requires '"' !in key
    ensures var r := Next("{" + ("\"" + (key + ("\"" + (":" + "\"")))));
            r == Some(Entry(key, "", 0, String)) && Advance(r.value) > |r.value.rest|
  {
    hide StrChr, ValueStart, EntryAt, Next;
    var colon := ":" + "\"";
    var close := "\"" + colon;
    StrChrSkip("{", "\"" + (key + close), '"');
    StrChrSkip(key, close, '"');
    StrChrSkip("\"", colon, ':');
    ValueStartSkip(":", "\"");
    NextIs("{" + ("\"" + (key + close)), key + close, key, close, colon);
    EntryAtIs(key, colon, "\"", String);
    assert "\""[1..] == "";
  }

  lemma CursorAfter(key: string, v: Json, tail: string)
    requires Good(v)
    ensures Cursor(Entry(key, Body(v) + tail, |Shown(v)|, KindIs(v))) == tail
  {
  }

  // ---------------------------------------------------------------- all members

  /** What surrounds an object: the end of the document, or the rest of an object that holds it. */
  datatype Scope =
    | Top(trail: string)
    | Inside(after: string, rest: Members, blank: string, outer: Scope)

  predicate GoodScope(sc: Scope) {
    match sc
    case Top(trail) => '"' !in trail
    case Inside(after, rest, blank, outer) => Blank(after) && GoodMembers(rest) && Blank(blank) && GoodScope(outer)
  }

  /** The text behind a value. */
  function Behind(sc: Scope): string
    decreases sc, 0
  {
    match sc
    case Top(trail) => trail
    case Inside(after, rest, blank, outer) => (after + Comma(rest)) + Within(rest, blank, outer)
  }

  /** The text from the members of an object on. */
  function Within(ms: Members, blank: string, outer: Scope): string
    decreases outer, 1
  {
    PrintMembers(ms) + ((blank + "}") + Behind(outer))
  }

  /** The entries from the members of an object on: also those of the objects around it. */
  function Expected(ms: Members, blank: string, outer: Scope): seq<Entry>
    decreases outer, ms
  {
    match ms
    case NoMember => if outer.Top? then [] else Expected(outer.rest, outer.blank, outer.outer)
    case Member(_, key, _, _, value, after, rest) =>
      var e := EntryFor(key, value, Inside(after, rest, blank, outer));
      (if e.Visible() then [e] else []) + Expected(rest, blank, outer)
  }

  function EntryFor(key: string, v: Json, sc: Scope): Entry { Entry(key, Body(v) + Behind(sc), |Shown(v)|, KindIs(v)) }

  lemma WithinMember(ms: Members, blank: string, outer: Scope)
    requires ms.Member?
    ensures Within(ms, blank, outer)
         == Head(ms.before, ms.key, ms.afterKey, ms.beforeValue)
            + (Print(ms.value) + Behind(Inside(ms.after, ms.rest, blank, outer)))
  {
    var (h, p) := (Head(ms.before, ms.key, ms.afterKey, ms.beforeValue), Print(ms.value));
    var (s, r) := (ms.after + Comma(ms.rest), PrintMembers(ms.rest));
    var t := (blank + "}") + Behind(outer);
    assert PrintMembers(ms) == h + (p + (s + r));
    assert (s + r) + t == s + (r + t);
    assert (p + (s + r)) + t == p + ((s + r) + t);
    assert (h + (p + (s + r))) + t == h + ((p + (s + r)) + t);
  }

  lemma InsideSeparates(after: string, rest: Members, blank: string, outer: Scope)
    requires Blank(after) && Blank(blank)
    ensures Separates(Behind(Inside(after, rest, blank, outer)))
  {
    if rest.NoMember? {
      assert Behind(Inside(after, rest, blank, outer)) == (after + blank) + ("}" + Behind(outer));
    } else {
      assert Behind(Inside(after, rest, blank, outer)) == after + ("," + Within(rest, blank, outer));
    }
  }

  /** The scanner, started anywhere before the members, yields the expected entries. */
  lemma {:induction false} EntriesPrinted(junk: string, ms: Members, blank: string, outer: Scope)
    requires '"' !in junk && GoodMembers(ms) && Blank(blank) && GoodScope(outer)
    ensures Entries(junk + Within(ms, blank, outer)) == Expected(ms, blank, outer)
    decreases outer, ms
  {
    var t := junk + Within(ms, blank, outer);
    EntriesUnfold(t);
    hide Entries, Next, Within, Print, PrintMembers, EntryFor, Blank;
    match ms
    case NoMember =>
      EndOfMembers(junk, blank, outer);
      if outer.Inside? {
        var more := (junk + (blank + "}")) + (outer.after + Comma(outer.rest));
        EntriesPrinted(more, outer.rest, outer.blank, outer.outer);
      }
    case Member(_, key, _, _, value, after, rest) =>
      FirstMember(junk, ms, blank, outer);
      BlankPlain(after);
      EntriesPrinted(after + Comma(rest), rest, blank, outer);
  }

  lemma EntriesUnfold(t: string)
    ensures match Next(t)
            case None => Entries(t) == []
            case Some(e) => Entries(t) == (if e.Visible() then [e] else []) + Entries(Cursor(e))
  {
  }

  lemma EndOfMembers(junk: string, blank: string, outer: Scope)
    requires '"' !in junk && Blank(blank) && GoodScope(outer)
    ensures var t := junk + Within(NoMember, blank, outer);
            if outer.Top? then Next(t) == None
            else
              var more := (junk + (blank + "}")) + (outer.after + Comma(outer.rest));
              '"' !in more && t == more + Within(outer.rest, outer.blank, outer.outer)
  {
    BlankPlain(blank);
    assert Within(NoMember, blank, outer) == (blank + "}") + Behind(outer);
    if outer.Top? {
      assert StrChr(junk + ((blank + "}") + outer.trail), '"') == None;
    } else {
      BlankPlain(outer.after);
      Regrouped(junk, blank + "}", outer.after + Comma(outer.rest), Within(outer.rest, outer.blank, outer.outer));
      hide Blank, Within, PrintMembers, GoodMembers, Next, StrChr;
    }
  }

  lemma Regrouped(a: string, b: string, c: string, d: string)
    ensures a + (b + (c + d)) == ((a + b) + c) + d
  {
  }

  /** The scanner's step over a member. */
  lemma FirstMember(junk: string, ms: Members, blank: string, outer: Scope)
    requires '"' !in junk && ms.Member? && GoodMembers(ms) && Blank(blank)
    ensures var behind := Inside(ms.after, ms.rest, blank, outer);
            var e := EntryFor(ms.key, ms.value, behind);
            Next(junk + Within(ms, blank, outer)) == Some(e) && Cursor(e) == Behind(behind)
  {
    var tail := Behind(Inside(ms.after, ms.rest, blank, outer));
    WithinMember(ms, blank, outer);
    InsideSeparates(ms.after, ms.rest, blank, outer);
    NextMember(junk, ms.before, ms.key, ms.afterKey, ms.beforeValue, ms.value, tail);
    CursorAfter(ms.key, ms.value, tail);
    hide Within, Next, Cursor, Head, Print, Body, Shown, PrintMembers;
  }

  // ---------------------------------------------------------------- looking up a name

  /** The first visible member of a name, in an object or else behind it. */
  function Locate(name: string, ms: Members, blank: string, outer: Scope): Option<(Json, Scope)>
    decreases outer, ms
  {
    match ms
    case NoMember => if outer.Top? then None else Locate(name, outer.rest, outer.blank, outer.outer)
    case Member(_, key, _, _, value, after, rest) =>
      if key == name && key != "" && Shown(value) != "" then Some((value, Inside(after, rest, blank, outer)))
      else Locate(name, rest, blank, outer)
  }

  /** The first visible member of a name in an object. */
  function Find(name: string, ms: Members): Option<Json> {
    match ms
    case NoMember => None
    case Member(_, key, _, _, value, _, rest) =>
      if key == name && key != "" && Shown(value) != "" then Some(value) else Find(name, rest)
  }

  lemma {:induction false} NamedExpected(name: string, ms: Members, blank: string, outer: Scope)
    ensures Named(Expected(ms, blank, outer), name)
         == match Locate(name, ms, blank, outer)
            case None => None
            case Some(found) => Some(EntryFor(name, found.0, found.1))
    decreases outer, ms
  {
    match ms
    case NoMember => if outer.Inside? { NamedExpected(name, outer.rest, outer.blank, outer.outer); }
    case Member(_, key, _, _, value, after, rest) =>
      NamedExpected(name, rest, blank, outer);
      var e := EntryFor(key, value, Inside(after, rest, blank, outer));
      var es := Expected(rest, blank, outer);
      hide Behind, Body, Shown, Expected;
      assert ([e] + es)[1..] == es && [] + es == es;
  }

  predicate Spaces(s: string) { forall i :: 0 <= i < |s| ==> s[i] == ' ' }

  lemma {:induction false} OpeningSkip(lead: string, t: string)
    requires Spaces(lead) && t != "" && t[0] == '{'
    ensures Opening('{', lead + t) == Some(t)
  {
    if lead == "" {
      assert lead + t == t;
    } else {
      assert (lead + t)[1..] == lead[1..] + t;
      OpeningSkip(lead[1..], t);
    }
  }

  lemma ObjectText(ms: Members, blank: string, sc: Scope)
    ensures Print(Obj(ms, blank)) + Behind(sc) == "{" + Within(ms, blank, sc)
  {
    var p := PrintMembers(ms);
    assert p + ((blank + "}") + Behind(sc)) == (p + (blank + "}")) + Behind(sc);
  }

  /** The visible entries of a written object: its members, then those behind it in the same text. */
  lemma EntriesOfObject(lead: string, ms: Members, blank: string, sc: Scope)
    requires Spaces(lead) && GoodMembers(ms) && Blank(blank) && GoodScope(sc)
    ensures EntriesOf(lead + (Print(Obj(ms, blank)) + Behind(sc))) == Expected(ms, blank, sc)
  {
    ObjectText(ms, blank, sc);
    OpeningSkip(lead, "{" + Within(ms, blank, sc));
    EntriesPrinted("{", ms, blank, sc);
  }

  /** The whole text of a document. */
  function Written(lead: string, ms: Members, blank: string, trail: string): string {
    lead + (Print(Obj(ms, blank)) + trail)
  }

  predicate GoodDocument(lead: string, ms: Members, blank: string, trail: string) {
    Spaces(lead) && GoodMembers(ms) && Blank(blank) && '"' !in trail
  }

  lemma {:induction false} LocateTop(name: string, ms: Members, blank: string, trail: string)
    ensures match Find(name, ms)
            case None => Locate(name, ms, blank, Top(trail)) == None
            case Some(v) => Locate(name, ms, blank, Top(trail)).Some? && Locate(name, ms, blank, Top(trail)).value.0 == v
  {
    if ms.Member? { LocateTop(name, ms.rest, blank, trail); }
  }

  /**
   Looking up a name in a document: the span and type of its first visible member of that name, the
   pointer being where that value starts, and nothing if there is no such member.
   */
  lemma NameLookup(lead: string, ms: Members, blank: string, trail: string, name: string)
    requires GoodDocument(lead, ms, blank, trail)
    ensures match Find(name, ms)
            case None => Named(EntriesOf(Written(lead, ms, blank, trail)), name) == None
            case Some(v) =>
              && Locate(name, ms, blank, Top(trail)).Some?
              && var e := EntryFor(name, v, Locate(name, ms, blank, Top(trail)).value.1);
                 Named(EntriesOf(Written(lead, ms, blank, trail)), name) == Some(e) && e.Text() == Shown(v)
  {
    EntriesOfObject(lead, ms, blank, Top(trail));
    NamedExpected(name, ms, blank, Top(trail));
    LocateTop(name, ms, blank, trail);
    if Find(name, ms).Some? {
      var found := Locate(name, ms, blank, Top(trail)).value;
      TextOfEntry(name, found.0, found.1);
    }
  }

  lemma TextOfEntry(key: string, v: Json, sc: Scope)
    ensures EntryFor(key, v, sc).Text() == Shown(v)
  {
    assert Shown(v) <= Body(v);
  }

  // ---------------------------------------------------------------- dotted paths

  /** Where a path leads: each step looks in the object found, or else behind it. */
  function Resolve(path: string, ms: Members, blank: string, outer: Scope): Option<(Json, Scope)>
    decreases |path|
  {
    match StrChr(path, '.')
    case None => Locate(path, ms, blank, outer)
    case Some(dot) =>
      match Locate(path[..|path| - |dot|], ms, blank, outer)
      case None => None
      case Some((v, sc)) => if v.Obj? then Resolve(dot[1..], v.members, v.blank, sc) else None
  }

  /** The visible value under a path: each step looks in the object found only. */
  function At(path: string, ms: Members): Option<Json>
    decreases |path|
  {
    match StrChr(path, '.')
    case None => Find(path, ms)
    case Some(dot) =>
      match Find(path[..|path| - |dot|], ms)
      case None => None
      case Some(v) => if v.Obj? then At(dot[1..], v.members) else None
  }

  lemma {:induction false} LocateGood(name: string, ms: Members, blank: string, outer: Scope)
    requires GoodMembers(ms) && Blank(blank) && GoodScope(outer)
    ensures var r := Locate(name, ms, blank, outer);
            r.Some? ==> Good(r.value.0) && GoodScope(r.value.1) && Shown(r.value.0) != ""
    decreases outer, ms
  {
    match ms
    case NoMember => if outer.Inside? { LocateGood(name, outer.rest, outer.blank, outer.outer); }
    case Member(_, _, _, _, _, _, rest) => LocateGood(name, rest, blank, outer);
  }

  lemma {:induction false} OpeningText(s: string, t: string)
    requires '{' !in s && t != "" && t[0] !in " {"
    ensures Opening('{', s + t) == None
  {
    if s == "" {
      assert s + t == t;
    } else {
      assert (s + t)[1..] == s[1..] + t;
      OpeningText(s[1..], t);
    }
  }

  lemma NotAnObject(v: Json, tail: string)
    requires Good(v) && !v.Obj? && Shown(v) != ""
    ensures EntriesOf(Body(v) + tail) == []
  {
    var t := Body(v) + tail;
    if v.Text? {
      assert t == v.text + ("\"" + tail);
      OpeningText(v.text, "\"" + tail);
    } else {
      FirstOfValue(v, tail);
      hide Good, Print, Shown;
      OpeningText("", t);
      assert "" + t == t;
    }
  }

  lemma NothingThere(src: string, path: string)
    requires EntriesOf(src) == []
    ensures PathEntry(src, path) == None
  {
  }

  /** The entry that a lookup yields is the one of the value located. */
  predicate Agrees(r: Option<Entry>, found: Option<(Json, Scope)>) {
    match found
    case None => r == None
    case Some((v, behind)) => r.Some? && r.value == EntryFor(r.value.key, v, behind)
  }

  lemma NameAgrees(lead: string, ms: Members, blank: string, sc: Scope, name: string)
    requires Spaces(lead) && GoodMembers(ms) && Blank(blank) && GoodScope(sc)
    ensures Agrees(Named(EntriesOf(lead + (Print(Obj(ms, blank)) + Behind(sc))), name), Locate(name, ms, blank, sc))
    ensures var found := Locate(name, ms, blank, sc);
            found.Some? ==> Good(found.value.0) && GoodScope(found.value.1) && Shown(found.value.0) != ""
  {
    EntriesOfObject(lead, ms, blank, sc);
    NamedExpected(name, ms, blank, sc);
    LocateGood(name, ms, blank, sc);
    hide Expected, Named, EntriesOf, Behind, Print, Locate, Body, Shown, Good, GoodScope;
  }

  /** What LITE_json_value_of finds in a written object, for every path at all. */
  lemma {:induction false} PathResolved(lead: string, ms: Members, blank: string, sc: Scope, path: string)
    requires Spaces(lead) && GoodMembers(ms) && Blank(blank) && GoodScope(sc)
    ensures Agrees(PathEntry(lead + (Print(Obj(ms, blank)) + Behind(sc)), path), Resolve(path, ms, blank, sc))
    decreases |path|
  {
    hide *;
    var src := lead + (Print(Obj(ms, blank)) + Behind(sc));
    PathStep(src, path);
    ResolveStep(path, ms, blank, sc);
    match StrChr(path, '.')
    case None => NameAgrees(lead, ms, blank, sc, path);
    case Some(dot) =>
      var name := path[..|path| - |dot|];
      NameAgrees(lead, ms, blank, sc, name);
      var (r, found) := (Named(EntriesOf(src), name), Locate(name, ms, blank, sc));
      AgreeingRest(r, found);
      if found.Some? {
        var (v, behind) := found.value;
        if v.Obj? {
          ObjectBody(v, Behind(behind));
          PathResolved("", v.members, v.blank, behind, dot[1..]);
        } else {
          NotAnObject(v, Behind(behind));
          NothingThere(Body(v) + Behind(behind), dot[1..]);
        }
      }
  }

  lemma AgreeingRest(r: Option<Entry>, found: Option<(Json, Scope)>)
    requires Agrees(r, found)
    ensures found == None <==> r == None
    ensures found.Some? ==> r.value.rest == Body(found.value.0) + Behind(found.value.1)
    ensures Agrees(None, None)
  {
  }

  lemma ResolveStep(path: string, ms: Members, blank: string, outer: Scope)
    ensures match StrChr(path, '.')
            case None => Resolve(path, ms, blank, outer) == Locate(path, ms, blank, outer)
            case Some(dot) =>
              Resolve(path, ms, blank, outer) ==
                match Locate(path[..|path| - |dot|], ms, blank, outer)
                case None => None
                case Some((v, sc)) => if v.Obj? then Resolve(dot[1..], v.members, v.blank, sc) else None
  {
    hide Locate, StrChr;
  }

  lemma ObjectBody(v: Json, tail: string)
    requires v.Obj? && Good(v)
    ensures GoodMembers(v.members) && Blank(v.blank) && Spaces("")
    ensures "" + (Print(Obj(v.members, v.blank)) + tail) == Body(v) + tail
  {
    assert v == Obj(v.members, v.blank);
  }

  predicate LooksUp(src: string, path: string, v: Json) {
    var r := PathEntry(src, path);
    r.Some? && r.value.Text() == Shown(v) && r.value.kind == KindIs(v)
  }

  /** A path that names a visible value of the document looks up to that value as written. */
  lemma PathLookup(lead: string, ms: Members, blank: string, trail: string, path: string)
    requires GoodDocument(lead, ms, blank, trail) && At(path, ms).Some?
    ensures LooksUp(Written(lead, ms, blank, trail), path, At(path, ms).value)
  {
    OpenLookup(lead, ms, blank, trail, path);
    OpenStrays(path, ms);
  }

  // ---------------------------------------------------------------- paths that name nothing

  /** The members behind the first visible one of a name. */
  function Later(name: string, ms: Members): Members {
    match ms
    case NoMember => NoMember
    case Member(_, key, _, _, value, _, rest) =>
      if key == name && key != "" && Shown(value) != "" then rest else Later(name, rest)
  }

  /** One list of members, followed by another. */
  function Cat(ms: Members, more: Members): Members {
    if ms.NoMember? then more else ms.(rest := Cat(ms.rest, more))
  }

  lemma {:induction false} CatAssoc(a: Members, b: Members, c: Members)
    ensures Cat(Cat(a, b), c) == Cat(a, Cat(b, c))
  {
    if a.Member? { CatAssoc(a.rest, b, c); }
  }

  lemma {:induction false} CatEnd(ms: Members)
    ensures Cat(ms, NoMember) == ms
  {
    if ms.Member? { CatEnd(ms.rest); }
  }

  lemma {:induction false} FindCat(name: string, ms: Members, more: Members)
    ensures Find(name, Cat(ms, more)) == if Find(name, ms).Some? then Find(name, ms) else Find(name, more)
    ensures Later(name, Cat(ms, more)) == if Find(name, ms).Some? then Cat(Later(name, ms), more) else Later(name, more)
  {
    hide Shown;
    if ms.Member? { FindCat(name, ms.rest, more); }
  }

  /** What the source does with a path: every object it enters is left open towards the members behind it. */
  function Open(path: string, ms: Members): Option<Json>
    decreases |path|
  {
    match StrChr(path, '.')
    case None => Find(path, ms)
    case Some(dot) =>
      var name := path[..|path| - |dot|];
      match Find(name, ms)
      case None => None
      case Some(v) => if v.Obj? then Open(dot[1..], Cat(v.members, Later(name, ms))) else None
  }

  /** All members behind a value, through the ends of the objects around it. */
  function Rest(sc: Scope): Members {
    if sc.Top? then NoMember else Cat(sc.rest, Rest(sc.outer))
  }

  lemma {:induction false} LocateOpen(name: string, ms: Members, blank: string, outer: Scope)
    ensures var (r, all) := (Locate(name, ms, blank, outer), Cat(ms, Rest(outer)));
            match Find(name, all)
            case None => r == None
            case Some(v) => r.Some? && r.value.0 == v && Rest(r.value.1) == Later(name, all)
    decreases outer, ms
  {
    hide Shown;
    match ms
    case NoMember => if outer.Inside? { LocateOpen(name, outer.rest, outer.blank, outer.outer); }
    case Member(_, _, _, _, _, _, rest) => LocateOpen(name, rest, blank, outer);
  }

  lemma {:induction false} ResolveOpen(path: string, ms: Members, blank: string, outer: Scope)
    ensures var r := Resolve(path, ms, blank, outer);
            match Open(path, Cat(ms, Rest(outer)))
            case None => r == None
            case Some(v) => r.Some? && r.value.0 == v
    decreases |path|
  {
    hide Locate, Find, Later, Cat, Rest, StrChr;
    match StrChr(path, '.')
    case None => LocateOpen(path, ms, blank, outer);
    case Some(dot) =>
      var name := path[..|path| - |dot|];
      LocateOpen(name, ms, blank, outer);
      match Locate(name, ms, blank, outer)
      case None =>
      case Some((v, sc)) => if v.Obj? { ResolveOpen(dot[1..], v.members, v.blank, sc); }
  }

  /** A lookup in a written document, for every path, in terms of the document alone. */
  lemma OpenLookup(lead: string, ms: Members, blank: string, trail: string, path: string)
    requires GoodDocument(lead, ms, blank, trail)
    ensures match Open(path, ms)
            case None => PathEntry(Written(lead, ms, blank, trail), path) == None
            case Some(v) => LooksUp(Written(lead, ms, blank, trail), path, v)
  {
    PathResolved(lead, ms, blank, Top(trail), path);
    ResolveOpen(path, ms, blank, Top(trail));
    CatEnd(ms);
    hide Resolve, Open, PathEntry, Print, GoodMembers;
    if Resolve(path, ms, blank, Top(trail)).Some? {
      var (v, sc) := Resolve(path, ms, blank, Top(trail)).value;
      TextOfEntry(PathEntry(Written(lead, ms, blank, trail), path).value.key, v, sc);
    }
  }

  /** The members that stand behind the steps of a path, innermost first. */
  function Ahead(path: string, ms: Members): Members
    decreases |path|
  {
    match StrChr(path, '.')
    case None => Later(path, ms)
    case Some(dot) =>
      var name := path[..|path| - |dot|];
      match Find(name, ms)
      case None => NoMember
      case Some(v) => if v.Obj? then Cat(Ahead(dot[1..], v.members), Later(name, ms)) else NoMember
  }

  lemma DottedPath(path: string, more: string)
    ensures var long := path + ("." + more);
            match StrChr(path, '.')
            case None => StrChr(long, '.') == Some("." + more) && long[..|long| - |"." + more|] == path && ("." + more)[1..] == more
            case Some(dot) =>
              && StrChr(long, '.') == Some(dot + ("." + more))
              && long[..|long| - |dot + ("." + more)|] == path[..|path| - |dot|]
              && (dot + ("." + more))[1..] == dot[1..] + ("." + more)
  {
    match StrChr(path, '.')
    case None => DottedName(path, more);
    case Some(dot) =>
      var name := path[..|path| - |dot|];
      assert path == name + dot && '.' !in name && dot != "" && dot[0] == '.';
      hide *;
      DottedMore(name, dot, more);
  }

  lemma DottedMore(name: string, dot: string, more: string)
    requires '.' !in name && dot != "" && dot[0] == '.'
    ensures var (long, tail) := ((name + dot) + ("." + more), dot + ("." + more));
            StrChr(long, '.') == Some(tail) && long[..|long| - |tail|] == name && tail[1..] == dot[1..] + ("." + more)
  {
    hide *;
    var tail := dot + ("." + more);
    Associate(name, dot, "." + more);
    StrChrSkip(name, tail, '.');
    CutBack(name, tail);
  }

  lemma CutBack(name: string, tail: string)
    ensures var t := name + tail; t[..|t| - |tail|] == name
  {
  }

  /** Names after a path that leads to an object are looked up in it and then in the members ahead. */
  lemma {:induction false} OpenThrough(path: string, more: string, ms: Members, behind: Members)
    requires At(path, ms).Some? && At(path, ms).value.Obj?
    ensures Open(path + ("." + more), Cat(ms, behind))
         == Open(more, Cat(At(path, ms).value.members, Cat(Ahead(path, ms), behind)))
    decreases |path|
  {
    hide Find, Later, Cat, StrChr;
    DottedPath(path, more);
    match StrChr(path, '.')
    case None => FindCat(path, ms, behind);
    case Some(dot) =>
      var name := path[..|path| - |dot|];
      FindCat(name, ms, behind);
      var v := Find(name, ms).value;
      OpenThrough(dot[1..], more, v.members, Cat(Later(name, ms), behind));
      CatAssoc(Ahead(dot[1..], v.members), Later(name, ms), behind);
  }

  /**
   When a further name behind a path to an object finds something: the object has it, or some object on
   the way has it behind the step that the path takes there.
   */
  lemma LastNameLookup(lead: string, ms: Members, blank: string, trail: string, path: string, last: string)
    requires GoodDocument(lead, ms, blank, trail) && '.' !in last && At(path, ms).Some? && At(path, ms).value.Obj?
    ensures PathEntry(Written(lead, ms, blank, trail), path + ("." + last)).Some?
       <==> Find(last, At(path, ms).value.members).Some? || Find(last, Ahead(path, ms)).Some?
  {
    OpenLookup(lead, ms, blank, trail, path + ("." + last));
    OpenThrough(path, last, ms, NoMember);
    CatEnd(ms);
    CatEnd(Ahead(path, ms));
    FindCat(last, At(path, ms).value.members, Ahead(path, ms));
    hide PathEntry, Find, At, Ahead, Written, Cat;
  }

  /** The names of a path from the first that is missing on, and the members ahead of it. */
  datatype Miss = Present | Blocked | Missed(names: string, ahead: Members)

  function FirstMiss(path: string, ms: Members, ahead: Members): (m: Miss)
    ensures m.Missed? ==> |m.names| < |path| || m == Missed(path, ahead)
    decreases |path|
  {
    match StrChr(path, '.')
    case None => if Find(path, ms).Some? then Present else Missed(path, ahead)
    case Some(dot) =>
      var name := path[..|path| - |dot|];
      match Find(name, ms)
      case None => Missed(path, ahead)
      case Some(v) => if v.Obj? then FirstMiss(dot[1..], v.members, Cat(Later(name, ms), ahead)) else Blocked
  }

  /** The names that are missing can be found ahead. */
  predicate Strays(path: string, ms: Members)
    decreases |path|
  {
    var m := FirstMiss(path, ms, NoMember);
    m.Missed? && |m.names| < |path| && (At(m.names, m.ahead).Some? || Strays(m.names, m.ahead))
  }

  lemma {:induction false} OpenMiss(path: string, ms: Members, ahead: Members)
    ensures match FirstMiss(path, ms, ahead)
            case Present => At(path, ms).Some? && Open(path, Cat(ms, ahead)) == At(path, ms)
            case Blocked => At(path, ms) == None && Open(path, Cat(ms, ahead)) == None
            case Missed(names, left) => At(path, ms) == None && Open(path, Cat(ms, ahead)) == Open(names, left)
    decreases |path|
  {
    OpenUnfold(path, Cat(ms, ahead));
    OpenUnfold(path, ahead);
    AtUnfold(path, ms);
    hide Open, At, Find, Later, Cat, StrChr;
    match StrChr(path, '.')
    case None => FindCat(path, ms, ahead);
    case Some(dot) =>
      var name := path[..|path| - |dot|];
      FindCat(name, ms, ahead);
      if Find(name, ms).Some? && Find(name, ms).value.Obj? {
        OpenMiss(dot[1..], Find(name, ms).value.members, Cat(Later(name, ms), ahead));
      }
  }

  lemma OpenUnfold(path: string, ms: Members)
    ensures Open(path, ms) == match StrChr(path, '.')
                              case None => Find(path, ms)
                              case Some(dot) => OpenRest(path[..|path| - |dot|], dot[1..], ms)
  {
    hide Find, Later, Cat, StrChr;
  }

  function OpenRest(name: string, more: string, ms: Members): Option<Json> {
    match Find(name, ms)
    case None => None
    case Some(v) => if v.Obj? then Open(more, Cat(v.members, Later(name, ms))) else None
  }

  lemma AtUnfold(path: string, ms: Members)
    ensures At(path, ms) == match StrChr(path, '.')
                            case None => Find(path, ms)
                            case Some(dot) => match Find(path[..|path| - |dot|], ms)
                                              case None => None
                                              case Some(v) => if v.Obj? then At(dot[1..], v.members) else None
  {
    hide Find, StrChr;
  }

  lemma {:induction false} NothingOpen(path: string)
    ensures Open(path, NoMember) == None
  {
  }

  lemma {:induction false} OpenStrays(path: string, ms: Members)
    ensures Open(path, ms).Some? <==> At(path, ms).Some? || Strays(path, ms)
    ensures At(path, ms).Some? ==> Open(path, ms) == At(path, ms)
    decreases |path|
  {
    OpenMiss(path, ms, NoMember);
    CatEnd(ms);
    NothingOpen(path);
    hide Open, At, FirstMiss, Cat;
    var m := FirstMiss(path, ms, NoMember);
    if m.Missed? && |m.names| < |path| { OpenStrays(m.names, m.ahead); }
  }

  // ---------------------------------------------------------------- what the document has

  /** The first member of a name, whatever the name and the value. */
  function FirstNamed(name: string, ms: Members): Option<Json> {
    if ms.NoMember? then None else if ms.key == name then Some(ms.value) else FirstNamed(name, ms.rest)
  }

  /** The value that a document has under a path: each step takes the first member of the name. */
  function Has(path: string, ms: Members): Option<Json>
    decreases |path|
  {
    match StrChr(path, '.')
    case None => FirstNamed(path, ms)
    case Some(dot) =>
      match FirstNamed(path[..|path| - |dot|], ms)
      case None => None
      case Some(v) => if v.Obj? then Has(dot[1..], v.members) else None
  }

  /** No name of the path is empty. */
  predicate NamesGiven(path: string)
    decreases |path|
  {
    match StrChr(path, '.')
    case None => path != ""
    case Some(dot) => |dot| < |path| && NamesGiven(dot[1..])
  }

  lemma {:induction false} FindFirst(name: string, ms: Members)
    ensures Find(name, ms).Some? ==> FirstNamed(name, ms).Some? && name != "" && Shown(Find(name, ms).value) != ""
    ensures var f := FirstNamed(name, ms);
            f.Some? && name != "" && Shown(f.value) != "" ==> Find(name, ms) == f
  {
    hide Shown;
    if ms.Member? { FindFirst(name, ms.rest); }
  }

  lemma ObjectShown(v: Json)
    requires v.Obj?
    ensures Shown(v) != ""
  {
  }

  lemma {:induction false} HasIsAt(path: string, ms: Members)
    requires Has(path, ms).Some? && Shown(Has(path, ms).value) != "" && NamesGiven(path)
    ensures At(path, ms) == Has(path, ms)
    decreases |path|
  {
    AtUnfold(path, ms);
    hide At, Find, FirstNamed, Shown, StrChr;
    match StrChr(path, '.')
    case None => FindFirst(path, ms);
    case Some(dot) =>
      var name := path[..|path| - |dot|];
      FindFirst(name, ms);
      var v := FirstNamed(name, ms).value;
      ObjectShown(v);
      HasIsAt(dot[1..], v.members);
  }

  /** Whatever the source finds is not empty, and was asked for by names that are not empty. */
  lemma {:induction false} OpenShown(path: string, ms: Members)
    ensures Open(path, ms).Some? ==> Shown(Open(path, ms).value) != "" && NamesGiven(path)
    decreases |path|
  {
    OpenUnfold(path, ms);
    hide Open, Find, Cat, Later, Shown, StrChr;
    match StrChr(path, '.')
    case None => FindFirst(path, ms);
    case Some(dot) =>
      var name := path[..|path| - |dot|];
      FindFirst(name, ms);
      if Find(name, ms).Some? && Find(name, ms).value.Obj? {
        OpenShown(dot[1..], Cat(Find(name, ms).value.members, Later(name, ms)));
      }
  }

  /** A lookup tells what the document has under a path. */
  predicate Faithful(src: string, ms: Members, path: string) {
    match Has(path, ms)
    case None => PathEntry(src, path) == None
    case Some(v) => LooksUp(src, path, v)
  }

  /**
   For every document and every path, a lookup is faithful if and only if the value under the path is
   not empty and no name of the path is, or there is no such value and no visible one, and the path does
   not stray.
   */
  lemma LookupFaithful(lead: string, ms: Members, blank: string, trail: string, path: string)
    requires GoodDocument(lead, ms, blank, trail)
    ensures Faithful(Written(lead, ms, blank, trail), ms, path)
       <==> match Has(path, ms)
            case None => At(path, ms) == None && !Strays(path, ms)
            case Some(v) => Shown(v) != "" && NamesGiven(path)
  {
    OpenLookup(lead, ms, blank, trail, path);
    OpenStrays(path, ms);
    OpenShown(path, ms);
    hide Open, At, Has, Strays, Written, PathEntry, Shown, NamesGiven;
    if Has(path, ms).Some? && Shown(Has(path, ms).value) != "" && NamesGiven(path) { HasIsAt(path, ms); }
  }

  lemma {:induction false} FindUnique(name: string, ms: Members)
    requires Plain(ms)
    ensures Find(name, ms).Some? ==> Find(name, ms) == FirstNamed(name, ms)
    ensures Find(name, ms).Some? && Find(name, ms).value.Obj? ==> Plain(Find(name, ms).value.members)
  {
    hide Shown;
    if ms.Member? {
      FindUnique(name, ms.rest);
      if ms.key == name && Find(name, ms.rest).Some? { FoundIsKey(name, ms.rest); }
    }
  }

  lemma {:induction false} AtIsHas(path: string, ms: Members)
    requires Plain(ms) && At(path, ms).Some?
    ensures Has(path, ms) == At(path, ms)
    decreases |path|
  {
    AtUnfold(path, ms);
    hide At, Find, FirstNamed, StrChr, Plain;
    match StrChr(path, '.')
    case None => FindUnique(path, ms);
    case Some(dot) =>
      var name := path[..|path| - |dot|];
      FindUnique(name, ms);
      AtIsHas(dot[1..], Find(name, ms).value.members);
  }

  /** With one member a name in every object, an absent path is told as absent exactly when it does not stray. */
  lemma PlainFaithful(lead: string, ms: Members, blank: string, trail: string, path: string)
    requires GoodDocument(lead, ms, blank, trail) && Plain(ms)
    ensures Faithful(Written(lead, ms, blank, trail), ms, path)
       <==> match Has(path, ms)
            case None => !Strays(path, ms)
            case Some(v) => Shown(v) != "" && NamesGiven(path)
  {
    LookupFaithful(lead, ms, blank, trail, path);
    hide Has, At, Strays, Shown, NamesGiven, Faithful, Plain;
    if At(path, ms).Some? { AtIsHas(path, ms); }
  }

  predicate Tells(r: Option<Entry>, v: Option<Json>) {
    match v
    case None => r == None
    case Some(v) => r.Some? && r.value.Text() == Shown(v) && r.value.kind == KindIs(v)
  }

  /** A lookup by one name is faithful if and only if the first member of the name, if any, is visible. */
  lemma NameFaithful(lead: string, ms: Members, blank: string, trail: string, name: string)
    requires GoodDocument(lead, ms, blank, trail)
    ensures Tells(Named(EntriesOf(Written(lead, ms, blank, trail)), name), FirstNamed(name, ms))
       <==> match FirstNamed(name, ms)
            case None => true
            case Some(v) => name != "" && Shown(v) != ""
  {
    NameLookup(lead, ms, blank, trail, name);
    FindFirst(name, ms);
    hide Find, FirstNamed, Shown, Locate, Written, Named, EntriesOf, Behind, Body;
  }

  /** A present member that is lost: its value is the empty string. */
  lemma EmptyValueLost()
    ensures var ms := Member("", "a", "", "", Text(""), "", NoMember);
            Has("a", ms) == Some(Text("")) && PathEntry(Written("", ms, "", ""), "a") == None
  {
    var ms := Member("", "a", "", "", Text(""), "", NoMember);
    assert StrChr("a", '.') == None && Find("a", ms) == None;
    assert GoodDocument("", ms, "", "");
    OpenLookup("", ms, "", "", "a");
  }

  /** A present member that is mistaken for another one behind it. */
  lemma EmptyValueMistaken()
    ensures var inner := Member("", "a", "", "", Text(""), "", NoMember);
            var ms := Member("", "o", "", "", Obj(inner, ""), "", Member("", "a", "", "", Text("x"), "", NoMember));
            && Plain(ms) && Has("o.a", ms) == Some(Text(""))
            && LooksUp(Written("", ms, "", ""), "o.a", Text("x"))
  {
    var inner := Member("", "a", "", "", Text(""), "", NoMember);
    var later := Member("", "a", "", "", Text("x"), "", NoMember);
    var ms := Member("", "o", "", "", Obj(inner, ""), "", later);
    assert Find("o", ms) == Some(Obj(inner, "")) && Later("o", ms) == later;
    assert FirstNamed("o", ms) == Some(Obj(inner, "")) && FirstNamed("a", inner) == Some(Text(""));
    assert Find("a", inner) == None && Find("a", later) == Some(Text("x"));
    assert "o" + ("." + "a") == "o.a";
    hide *;
    MistakenDocument();
    TwoNames("o", "a", ms);
    FindCat("a", inner, later);
    OpenLookup("", ms, "", "", "o.a");
  }

  lemma MistakenDocument()
    ensures var inner := Member("", "a", "", "", Text(""), "", NoMember);
            var ms := Member("", "o", "", "", Obj(inner, ""), "", Member("", "a", "", "", Text("x"), "", NoMember));
            GoodDocument("", ms, "", "") && Plain(ms)
  {
  }

  /** A path of two names, step by step. */
  lemma TwoNames(first: string, second: string, ms: Members)
    requires '.' !in first && '.' !in second
    ensures var v := Find(first, ms);
            v.Some? && v.value.Obj? ==> Open(first + ("." + second), ms) == Find(second, Cat(v.value.members, Later(first, ms)))
    ensures var v := FirstNamed(first, ms);
            v.Some? && v.value.Obj? ==> Has(first + ("." + second), ms) == FirstNamed(second, v.value.members)
  {
    DottedName(first, second);
    assert StrChr(second, '.') == None;
    hide StrChr, Find, FirstNamed, Later, Cat;
  }

  /** A path of two names. */
  lemma TwoStepLookup(lead: string, ms: Members, blank: string, trail: string, first: string, second: string)
    requires GoodDocument(lead, ms, blank, trail) && '.' !in first && '.' !in second
    ensures PathEntry(Written(lead, ms, blank, trail), first + ("." + second)).Some?
       <==> && Find(first, ms).Some? && Find(first, ms).value.Obj?
            && (Find(second, Find(first, ms).value.members).Some? || Find(second, Later(first, ms)).Some?)
  {
    if Find(first, ms).Some? && Find(first, ms).value.Obj? {
      LastNameLookup(lead, ms, blank, trail, first, second);
    } else {
      DottedName(first, second);
      OpenLookup(lead, ms, blank, trail, first + ("." + second));
    }
  }

  lemma DottedName(first: string, second: string)
    requires '.' !in first
    ensures var path := first + ("." + second);
            StrChr(path, '.') == Some("." + second) && path[..|path| - |"." + second|] == first && ("." + second)[1..] == second
  {
    StrChrSkip(first, "." + second, '.');
  }

  /** So a path that names nothing can be found: here "a" has no member "b". */
  lemma AbsentPathFound()
    ensures var later := Member("", "b", "", "", Numeral("2"), "", NoMember);
            var ms := Member("", "a", "", "", Obj(NoMember, ""), "", later);
            Has("a.b", ms) == None && PathEntry(Written("", ms, "", ""), "a.b").Some?
  {
    var later := Member("", "b", "", "", Numeral("2"), "", NoMember);
    var ms := Member("", "a", "", "", Obj(NoMember, ""), "", later);
    assert Find("a", ms) == Some(Obj(NoMember, "")) && Later("a", ms) == later;
    assert FirstNamed("a", ms) == Some(Obj(NoMember, "")) && FirstNamed("b", NoMember) == None;
    assert Cat(NoMember, later) == later && Find("b", later).Some?;
    assert GoodDocument("", ms, "", "");
    assert "a" + ("." + "b") == "a.b";
    hide *;
    TwoNames("a", "b", ms);
    FoundThere("", ms, "", "", "a.b");
  }

  lemma FoundThere(lead: string, ms: Members, blank: string, trail: string, path: string)
    requires GoodDocument(lead, ms, blank, trail) && Open(path, ms).Some?
    ensures PathEntry(Written(lead, ms, blank, trail), path).Some?
  {
    OpenLookup(lead, ms, blank, trail, path);
  }

  // ---------------------------------------------------------------- the list of keys

  /** Every visible member with its path, each before the members inside it. */
  function Listing(ms: Members): seq<(string, Json)> {
    if ms.NoMember? then [] else Own(ms.key, ms.value) + Listing(ms.rest)
  }

  /** The paths of one member. */
  function Own(key: string, v: Json): seq<(string, Json)>
    decreases v
  {
    if key == "" || Shown(v) == "" then []
    else [(key, v)] + if v.Obj? then Prefixed(key + ".", Listing(v.members)) else []
  }

  function Prefixed(prefix: string, l: seq<(string, Json)>): seq<(string, Json)> {
    seq(|l|, i requires 0 <= i < |l| => (prefix + l[i].0, l[i].1))
  }

  function Paths(l: seq<(string, Json)>): seq<string> {
    seq(|l|, i requires 0 <= i < |l| => l[i].0)
  }

  /** Paths and nested texts that the 511 characters of a formatted text can hold. */
  predicate Fits(n: nat, ms: Members)
    decreases ms
  {
    match ms
    case NoMember => true
    case Member(_, key, _, _, value, _, rest) =>
      && (key != "" && Shown(value) != "" ==>
            && n + |key| <= 511
            && (value.Obj? ==> |Print(value)| <= 511 && Fits(n + |key| + 1, value.members)))
      && Fits(n, rest)
  }

  lemma {:induction false} FitsTight(n: nat, ms: Members)
    requires Fits(n, ms) && n >= 511
    ensures Listing(ms) == []
    ensures forall m: nat :: Fits(m, ms)
  {
    if ms.Member? { FitsTight(n, ms.rest); }
  }

  lemma PrefixedTwice(a: string, b: string, l: seq<(string, Json)>)
    ensures Paths(Prefixed(a, Prefixed(b, l))) == Paths(Prefixed(a + b, l))
  {
    forall i | 0 <= i < |l| ensures a + (b + l[i].0) == (a + b) + l[i].0 {}
  }

  lemma PrefixedEntry(prefix: string, key: string, v: Json, inner: seq<(string, Json)>, more: seq<(string, Json)>)
    ensures Paths(Prefixed(prefix, ([(key, v)] + inner) + more))
         == ([prefix + key] + Paths(Prefixed(prefix, inner))) + Paths(Prefixed(prefix, more))
  {
  }

  /** The keys listed from the members of an outermost object on. */
  lemma {:induction false} KeysPrinted(junk: string, ms: Members, blank: string, trail: string, prefix: string)
    requires '"' !in junk && GoodMembers(ms) && Blank(blank) && '"' !in trail && Fits(|prefix|, ms)
    ensures KeysAt(junk + Within(ms, blank, Top(trail)), prefix) == Paths(Prefixed(prefix, Listing(ms)))
    decreases ms
  {
    var t := junk + Within(ms, blank, Top(trail));
    KeysUnfold(t, prefix);
    hide KeysAt, Next, Within, Print, PrintMembers, Blank;
    match ms
    case NoMember => EndOfMembers(junk, blank, Top(trail));
    case Member(_, key, _, _, value, after, rest) =>
      FirstMember(junk, ms, blank, Top(trail));
      BlankPlain(after);
      KeysPrinted(after + Comma(rest), rest, blank, trail, prefix);
      var e := EntryFor(key, value, Inside(after, rest, blank, Top(trail)));
      if e.Visible() {
        KeysOfValue(e, value, prefix, t);
        PrefixedEntry(prefix, key, value, if value.Obj? then Prefixed(key + ".", Listing(value.members)) else [], Listing(rest));
      }
  }

  lemma KeysUnfold(t: string, prefix: string)
    ensures match Next(t)
            case None => KeysAt(t, prefix) == []
            case Some(e) => KeysAt(t, prefix) == EntryKeys(e, prefix, t) + KeysAt(Cursor(e), prefix)
  {
  }

  /** The keys listed for the members of a value. */
  lemma {:induction false} KeysOfValue(e: Entry, v: Json, prefix: string, within: string)
    requires |e.rest| < |within| && e.kind == KindIs(v) && e.Text() == Shown(v) && Good(v)
    requires |prefix| + |e.key| <= 511
    requires v.Obj? ==> |Print(v)| <= 511 && Fits(|prefix| + |e.key| + 1, v.members)
    ensures NestedKeys(e, prefix, within)
         == if v.Obj? then Paths(Prefixed(prefix, Prefixed(e.key + ".", Listing(v.members)))) else []
    decreases v, 1
  {
    hide *;
    KindOfObject(v);
    if v.Obj? {
      OpeningObject(v);
      KeysOfObject(v, prefix, e.key);
      NestedKeysAre(e, prefix, within, "{" + Within(v.members, v.blank, Top("")));
    } else {
      NoNestedKeys(e, prefix, within);
    }
  }

  lemma KindOfObject(v: Json)
    ensures KindIs(v).Object? <==> v.Obj?
    ensures v.Obj? ==> Shown(v) == Print(v)
  {
    hide Print;
  }

  lemma NoNestedKeys(e: Entry, prefix: string, within: string)
    requires |e.rest| < |within| && !e.kind.Object?
    ensures NestedKeys(e, prefix, within) == []
  {
    hide Opening, KeysAt;
  }

  lemma NestedKeysAre(e: Entry, prefix: string, within: string, pos: string)
    requires |e.rest| < |within| && e.kind.Object? && |e.Text()| <= 511 && Opening('{', e.Text()) == Some(pos)
    ensures NestedKeys(e, prefix, within) == KeysAt(pos, Format(prefix + e.key + "."))
  {
    hide Opening, KeysAt;
  }

  /** A prefix that is cut short has no members to serve. */
  lemma {:induction false} KeysOfObject(v: Json, prefix: string, key: string)
    requires v.Obj? && Good(v) && Fits(|prefix| + |key| + 1, v.members)
    ensures KeysAt("{" + Within(v.members, v.blank, Top("")), Format(prefix + key + "."))
         == Paths(Prefixed(prefix, Prefixed(key + ".", Listing(v.members))))
    decreases v, 0
  {
    assert GoodMembers(v.members) && Blank(v.blank);
    hide KeysAt, Listing, Within, Fits, Blank, GoodMembers, Good, Paths, Prefixed;
    var (p, n) := (prefix + key + ".", |prefix| + |key| + 1);
    Associate(prefix, key, ".");
    PrefixedTwice(prefix, key + ".", Listing(v.members));
    if n > 511 {
      FitsTight(n, v.members);
      NoPaths(Format(p), p);
    }
    KeysPrinted("{", v.members, v.blank, "", Format(p));
  }

  lemma NoPaths(a: string, b: string)
    ensures Paths(Prefixed(a, [])) == Paths(Prefixed(b, []))
  {
  }

  lemma OpeningObject(v: Json)
    requires v.Obj?
    ensures Opening('{', Print(v)) == Some("{" + Within(v.members, v.blank, Top("")))
  {
    ObjectText(v.members, v.blank, Top(""));
    assert v == Obj(v.members, v.blank) && Print(v) + "" == Print(v);
    hide Within, Print;
  }

  // ---------------------------------------------------------------- listed paths look up

  predicate KeyIn(key: string, ms: Members) { ms.Member? && (ms.key == key || KeyIn(key, ms.rest)) }

  /** Names have no dots, and no object has two members of one name. */
  predicate Plain(ms: Members) {
    match ms
    case NoMember => true
    case Member(_, key, _, _, value, _, rest) =>
      '.' !in key && !KeyIn(key, rest) && (value.Obj? ==> Plain(value.members)) && Plain(rest)
  }

  /** A path that starts at a later member is not diverted by the first one. */
  lemma AtRest(path: string, ms: Members)
    requires ms.Member? && At(path, ms.rest).Some? && !KeyIn(ms.key, ms.rest)
    ensures At(path, ms) == At(path, ms.rest)
  {
    var name := match StrChr(path, '.') case None => path case Some(dot) => path[..|path| - |dot|];
    FoundIsKey(name, ms.rest);
  }

  lemma {:induction false} FoundIsKey(name: string, ms: Members)
    requires Find(name, ms).Some?
    ensures KeyIn(name, ms)
  {
    if ms.key != name { FoundIsKey(name, ms.rest); }
  }

  /** Every path of the listing names the value it is listed with. */
  lemma {:induction false} ListedIsAt(ms: Members, i: nat)
    requires Plain(ms) && i < |Listing(ms)|
    ensures At(Listing(ms)[i].0, ms) == Some(Listing(ms)[i].1)
  {
    hide *;
    PlainMember(ms);
    ListingAt(ms, i);
    var (n, l) := (|Own(ms.key, ms.value)|, Listing(ms)[i]);
    if i >= n {
      ListedIsAt(ms.rest, i - n);
      AtRest(l.0, ms);
    } else if i > 0 {
      ListedIsAt(ms.value.members, i - 1);
      AtInner(Listing(ms.value.members)[i - 1].0, ms);
    } else {
      AtFirst(ms);
    }
  }

  /** Where an entry of the listing comes from. */
  lemma ListingAt(ms: Members, i: nat)
    requires ms.Member? && i < |Listing(ms)|
    ensures var (n, l) := (|Own(ms.key, ms.value)|, Listing(ms)[i]);
            if i >= n then i - n < |Listing(ms.rest)| && l == Listing(ms.rest)[i - n]
            else
              && ms.key != "" && Shown(ms.value) != ""
              && if i == 0 then l == (ms.key, ms.value)
                 else
                   && ms.value.Obj? && i - 1 < |Listing(ms.value.members)|
                   && l.0 == ms.key + "." + Listing(ms.value.members)[i - 1].0 && l.1 == Listing(ms.value.members)[i - 1].1
  {
    OwnAt(ms.key, ms.value);
    assert Listing(ms) == Own(ms.key, ms.value) + Listing(ms.rest);
    hide Listing, Own, Shown;
  }

  lemma PlainMember(ms: Members)
    requires Plain(ms) && Listing(ms) != []
    ensures ms.Member? && '.' !in ms.key && !KeyIn(ms.key, ms.rest) && Plain(ms.rest)
    ensures ms.value.Obj? ==> Plain(ms.value.members)
  {
    hide Own, KeyIn;
  }

  lemma OwnAt(key: string, v: Json)
    ensures var own := Own(key, v);
            own != [] ==>
              && key != "" && Shown(v) != "" && own[0] == (key, v)
              && |own| == 1 + (if v.Obj? then |Listing(v.members)| else 0) && (|own| > 1 ==> v.Obj?)
              && forall i :: 1 <= i < |own| ==> own[i] == (key + "." + Listing(v.members)[i - 1].0, Listing(v.members)[i - 1].1)
  {
    hide Listing, Shown;
  }

  lemma AtFirst(ms: Members)
    requires ms.Member? && '.' !in ms.key && ms.key != "" && Shown(ms.value) != ""
    ensures At(ms.key, ms) == Some(ms.value)
  {
  }

  lemma AtInner(path: string, ms: Members)
    requires ms.Member? && '.' !in ms.key && ms.key != "" && ms.value.Obj? && Shown(ms.value) != ""
    ensures At(ms.key + "." + path, ms) == At(path, ms.value.members)
  {
    Associate(ms.key, ".", path);
    DottedName(ms.key, path);
    assert Find(ms.key, ms) == Some(ms.value);
    hide StrChr, Shown, Find;
    AtUnfold(ms.key + "." + path, ms);
    hide At;
  }

  /** Every member with its path, visible or not. */
  function Everything(ms: Members): seq<(string, Json)> {
    if ms.NoMember? then []
    else
      ([(ms.key, ms.value)] + if ms.value.Obj? then Prefixed(ms.key + ".", Everything(ms.value.members)) else [])
      + Everything(ms.rest)
  }

  /** No name and no value is empty, in the object and in those inside it. */
  predicate AllVisible(ms: Members) {
    ms.Member? ==>
      && ms.key != "" && Shown(ms.value) != "" && AllVisible(ms.rest)
      && (ms.value.Obj? ==> AllVisible(ms.value.members))
  }

  lemma {:induction false} ListingComplete(ms: Members)
    ensures |Listing(ms)| <= |Everything(ms)|
    ensures |Listing(ms)| == |Everything(ms)| <==> AllVisible(ms)
    ensures AllVisible(ms) ==> Listing(ms) == Everything(ms)
  {
    hide Shown;
    if ms.Member? {
      ListingComplete(ms.rest);
      if ms.value.Obj? { ListingComplete(ms.value.members); }
    }
  }

  /**
   The list of keys of a document is the paths of its visible members in order; it is the paths of all
   members if and only if no name and no value is empty.
   */
  lemma KeysListed(lead: string, ms: Members, blank: string, trail: string)
    requires GoodDocument(lead, ms, blank, trail) && Fits(0, ms)
    ensures KeysIn(Written(lead, ms, blank, trail), "") == Paths(Listing(ms))
    ensures KeysIn(Written(lead, ms, blank, trail), "") == Paths(Everything(ms)) <==> AllVisible(ms)
  {
    ListingComplete(ms);
    hide Everything, AllVisible;
    hide Within, Listing, KeysAt, Opening, Written, Next, Fits, GoodMembers, Blank;
    OpeningWritten(lead, ms, blank, trail);
    KeysPrinted("{", ms, blank, trail, "");
    PrefixedNot(Listing(ms));
  }

  lemma PrefixedNot(l: seq<(string, Json)>)
    ensures Prefixed("", l) == l
  {
    forall i | 0 <= i < |l| ensures Prefixed("", l)[i] == l[i] {
      assert "" + l[i].0 == l[i].0;
    }
  }

  lemma OpeningWritten(lead: string, ms: Members, blank: string, trail: string)
    requires Spaces(lead)
    ensures Opening('{', Written(lead, ms, blank, trail)) == Some("{" + Within(ms, blank, Top(trail)))
  {
    ObjectText(ms, blank, Top(trail));
    OpeningSkip(lead, "{" + Within(ms, blank, Top(trail)));
  }

  /** And every listed path looks up to exactly the value it was written with. */
  lemma KeysLookUp(lead: string, ms: Members, blank: string, trail: string)
    requires GoodDocument(lead, ms, blank, trail) && Fits(0, ms) && Plain(ms)
    ensures var (src, keys) := (Written(lead, ms, blank, trail), KeysIn(Written(lead, ms, blank, trail), ""));
            && |keys| == |Listing(ms)|
            && forall i :: 0 <= i < |keys| ==> LooksUp(src, keys[i], Listing(ms)[i].1)
  {
    KeysListed(lead, ms, blank, trail);
    hide Written, Listing, KeysIn, GoodDocument, Fits, At, Plain, LooksUp;
    forall i | 0 <= i < |Listing(ms)| ensures LooksUp(Written(lead, ms, blank, trail), Listing(ms)[i].0, Listing(ms)[i].1) {
      ListedIsAt(ms, i);
      PathLookup(lead, ms, blank, trail, Listing(ms)[i].0);
    }
  }
}

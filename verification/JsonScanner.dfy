/**
 The cursor scanner of sdk_src/utils/json_parser.c and the path lookup and key collector of
 sdk_src/utils/json_token.c. A pointer into a text is modelled by the rest of the text from it up to
 the terminating NUL, so the difference of two pointers is the difference of two lengths.
 */
module JsonScanner {

  datatype Option<T> = None | Some(value: T)

  datatype Kind = String | Object | Array | Number | Boolean | Null

  /** One name and value: the value's pointer, its length and its type. */
  datatype Entry = Entry(key: string, rest: string, len: nat, kind: Kind) {
    /** The loops over members pass over empty names and empty values. */
    predicate Visible() { key != "" && len != 0 }

    function Text(): string { Copied(rest, len) }
  }

  /** A formatted copy of at most len characters. */
  function Copied(s: string, len: nat): string { if len <= |s| then s[..len] else s }

  // ---------------------------------------------------------------- specification: one member

  /** strchr */
  function StrChr(t: string, c: char): (r: Option<string>)
    ensures r.None? <==> c !in t
    ensures r.Some? ==> r.value != "" && r.value[0] == c && |r.value| <= |t|
    ensures r.Some? ==> r.value == t[|t| - |r.value|..] && c !in t[..|t| - |r.value|]
  {
    if t == "" then None else if t[0] == c then Some(t) else StrChr(t[1..], c)
  }

  predicate Digit(c: char) { '0' <= c <= '9' }

  function KindOf(c: char): Option<Kind> {
    if c == '"' then Some(String)
    else if c == '{' then Some(Object)
    else if c == '[' then Some(Array)
    else if c == '-' || Digit(c) then Some(Number)
    else if c in "tTfF" then Some(Boolean)
    else if c in "nN" then Some(Null)
    else None
  }

  /** The first place where a value starts. */
  function ValueStart(t: string): (r: Option<string>)
    ensures r.Some? ==> |r.value| <= |t| && r.value != "" && KindOf(r.value[0]).Some?
  {
    if t == "" then None else if KindOf(t[0]).Some? then Some(t) else ValueStart(t[1..])
  }

  /** Where the mark that closes the current level stands, or -1. */
  function Matching(open: char, close: char, t: string, depth: nat): (r: int)
    ensures -1 <= r < |t|
  {
    if t == "" then -1
    else if t[0] == close && depth == 0 then 0
    else Plus(1, Matching(open, close, t[1..],
                          if t[0] == close then depth - 1 else if t[0] == open then depth + 1 else depth))
  }

  /** A position n characters further on, if there is one. */
  function Plus(n: nat, r: int): int { if r < 0 then -1 else n + r }

  function First(t: string): char { if t == "" then '\0' else t[0] }

  /**
   The length of a quoted text: n characters lie behind, `last` is the character the code remembers,
   `len` the length it has noted at the latest escaped quote.
   */
  function Quoted(t: string, n: nat, last: char, len: nat): (r: nat)
    requires len <= n
    ensures r <= n + |t|
  {
    if t == "" then len
    else if t[0] != '"' then Quoted(t[1..], n + 1, t[0], len)
    else if last == '\\' then Quoted(t[1..], n + 1, First(t[1..]), n)
    else n
  }

  /** The first character that no number holds, or -1. */
  function Numeric(t: string): (r: int)
    ensures -1 <= r < |t|
  {
    if t == "" then -1 else if !Digit(t[0]) && t[0] != '.' then 0 else Plus(1, Numeric(t[1..]))
  }

  function BooleanLength(v: string): (n: nat)
    ensures n <= |v|
  {
    if "true" <= v || "TRUE" <= v then 4 else if "false" <= v || "FALSE" <= v then 5 else 0
  }

  function NullLength(v: string): (n: nat)
    ensures n <= |v|
  {
    if "null" <= v || "NULL" <= v then 4 else 0
  }

  /** The length noted for a value that starts with v; zero if the text ends too early. */
  function ValueLength(kind: Kind, v: string): (n: nat)
    requires kind.String? || v != ""
    ensures n <= |v|
  {
    match kind
    case String => Quoted(v, 0, '"', 0)
    case Object => Plus(2, Matching('{', '}', v[1..], 0)) + if Matching('{', '}', v[1..], 0) < 0 then 1 else 0
    case Array => Plus(2, Matching('[', ']', v[1..], 0)) + if Matching('[', ']', v[1..], 0) < 0 then 1 else 0
    case Number => if Numeric(v[1..]) < 0 then 0 else 1 + Numeric(v[1..])
    case Boolean => BooleanLength(v)
    case Null => NullLength(v)
  }

  /** json_get_next_object: the name and value after a place in an object. */
  function Next(str: string): (r: Option<Entry>)
    ensures r.Some? ==> |r.value.rest| < |str| && r.value.len <= |r.value.rest|
  {
    match StrChr(str, '"')
    case None => None
    case Some(open) =>
      var name := open[1..];
      match StrChr(name, '"')
      case None => None
      case Some(close) =>
        var key := name[..|name| - |close|];
        match StrChr(close, ':')
        case None => None
        case Some(colon) => EntryAt(key, colon)
  }

  /** The entry whose value is the first one in the text after the name. */
  function EntryAt(key: string, after: string): (r: Option<Entry>)
    ensures r.Some? ==> |r.value.rest| <= |after| && r.value.len <= |r.value.rest|
  {
    match ValueStart(after)
    case None => None
    case Some(at) =>
      var kind := KindOf(at[0]).value;
      var v := if kind.String? then at[1..] else at;
      Some(Entry(key, v, ValueLength(kind, v), kind))
  }

  /** How far behind the value's pointer the scan goes on: behind the closing quote, for a string. */
  function Advance(e: Entry): nat { if e.kind.String? then e.len + 1 else e.len }

  /** Where the scan goes on after an entry; the end of the text if the pointer would lie behind it. */
  function Cursor(e: Entry): (r: string)
    ensures |r| <= |e.rest|
  {
    if Advance(e) <= |e.rest| then e.rest[Advance(e)..] else ""
  }

  lemma {:induction false} QuotedInside(t: string, n: nat, last: char, len: nat)
    requires len <= n && len < n + |t|
    ensures Quoted(t, n, last, len) < n + |t|
  {
    if t != "" {
      if t[0] != '"' {
        QuotedInside(t[1..], n + 1, t[0], len);
      } else if last == '\\' {
        QuotedInside(t[1..], n + 1, First(t[1..]), n);
      }
    }
  }

  /** The text from the colon behind the next name on. */
  function FromColon(str: string): Option<string> {
    match StrChr(str, '"')
    case None => None
    case Some(open) =>
      match StrChr(open[1..], '"')
      case None => None
      case Some(close) => StrChr(close, ':')
  }

  /** The returned pointer leaves the text if and only if the text ends right behind a value's opening quote. */
  lemma CursorLeaves(str: string)
    ensures Next(str).Some? && Advance(Next(str).value) > |Next(str).value.rest|
       <==> FromColon(str).Some? && ValueStart(FromColon(str).value) == Some("\"")
  {
    EntryFromColon(str);
    hide Next, FromColon, ValueStart;
    if Next(str).Some? {
      var e := Next(str).value;
      if e.kind.String? && e.rest != "" { QuotedInside(e.rest, 0, '"', 0); }
    }
  }

  lemma EntryFromColon(str: string)
    ensures Next(str).Some? <==> FromColon(str).Some? && ValueStart(FromColon(str).value).Some?
    ensures Next(str).Some? ==>
      var (e, at) := (Next(str).value, ValueStart(FromColon(str).value).value);
      && (e.kind.String? || e.rest != "") && e.len == ValueLength(e.kind, e.rest)
      && (e.kind.String? && e.rest == "" <==> at == "\"")
  {
    hide StrChr, ValueStart, ValueLength;
  }

  // ---------------------------------------------------------------- specification: all members

  /** json_get_object: the place of the opening mark, if only spaces lie before it. */
  function Opening(mark: char, str: string): (r: Option<string>)
    ensures r.Some? ==> |r.value| <= |str|
  {
    if str == "" then None
    else if str[0] == ' ' then Opening(mark, str[1..])
    else if str[0] == mark then Some(str)
    else None
  }

  /** The visible entries from a place in an object on, to the end of the text. */
  function Entries(pos: string): seq<Entry>
    decreases |pos|
  {
    match Next(pos)
    case None => []
    case Some(e) => (if e.Visible() then [e] else []) + Entries(Cursor(e))
  }

  function EntriesOf(str: string): seq<Entry> {
    match Opening('{', str)
    case None => []
    case Some(pos) => Entries(pos)
  }

  function Named(es: seq<Entry>, name: string): (r: Option<Entry>)
    ensures r.Some? ==> r.value in es && r.value.key == name
  {
    if es == [] then None else if es[0].key == name then Some(es[0]) else Named(es[1..], name)
  }

  // ---------------------------------------------------------------- what the specification computes

  /** Only spaces are skipped before the opening mark. */
  lemma {:induction false} OpeningExactly(mark: char, str: string, n: nat)
    requires n < |str| && str[n] != ' ' && forall i :: 0 <= i < n ==> str[i] == ' '
    ensures Opening(mark, str) == if str[n] == mark then Some(str[n..]) else None
  {
    if n > 0 {
      OpeningExactly(mark, str[1..], n - 1);
      assert str[1..][n - 1..] == str[n..];
    }
  }

  /** The characters that start a value, and the type they start. */
  lemma KindExactly(c: char)
    ensures KindOf(c) == Some(String) <==> c == '"'
    ensures KindOf(c) == Some(Object) <==> c == '{'
    ensures KindOf(c) == Some(Array) <==> c == '['
    ensures KindOf(c) == Some(Number) <==> c == '-' || '0' <= c <= '9'
    ensures KindOf(c) == Some(Boolean) <==> c == 't' || c == 'T' || c == 'f' || c == 'F'
    ensures KindOf(c) == Some(Null) <==> c == 'n' || c == 'N'
  {
  }

  /** The value starts at the first such character. */
  lemma {:induction false} ValueStartExactly(t: string, n: nat)
    requires n <= |t| && (n < |t| ==> KindOf(t[n]).Some?) && forall i :: 0 <= i < n ==> KindOf(t[i]).None?
    ensures ValueStart(t) == if n < |t| then Some(t[n..]) else None
  {
    hide KindOf;
    if n > 0 {
      ValueStartExactly(t[1..], n - 1);
      assert n < |t| ==> t[1..][n - 1..] == t[n..];
    }
  }

  /** A number ends at the first character that is neither a digit nor a dot. */
  lemma {:induction false} NumericExactly(t: string, n: nat)
    requires n <= |t| && forall i :: 0 <= i < n ==> '0' <= t[i] <= '9' || t[i] == '.'
    requires n < |t| ==> !('0' <= t[n] <= '9') && t[n] != '.'
    ensures Numeric(t) == if n < |t| then n else -1
  {
    if n > 0 { NumericExactly(t[1..], n - 1); }
  }

  /** A quoted text without quotes or backslashes inside ends at the first quote; one without end has length zero. */
  lemma {:induction false} QuotedExactly(t: string, n: nat, k: nat, last: char)
    requires n <= |t| && last != '\\' && forall i :: 0 <= i < n ==> t[i] != '"' && t[i] != '\\'
    requires n < |t| ==> t[n] == '"'
    ensures Quoted(t, k, last, 0) == if n < |t| then k + n else 0
  {
    if n > 0 { QuotedExactly(t[1..], n - 1, k + 1, t[0]); }
  }

  // ---------------------------------------------------------------- json_parser.c

  method GetObject(mark: char, str: string) returns (pos: Option<string>)
    ensures pos == Opening(mark, str)
  {
    var s := str;
    while s != ""
      invariant Opening(mark, s) == Opening(mark, str)
      decreases |s|
    {
      if s[0] == ' ' {
        s := s[1..];
        continue;
      }
      return if s[0] == mark then Some(s) else None;
    }
    return None;
  }

  /** The first loop of json_get_next_object: to the start of a value. */
  method SeekValue(after: string) returns (r: Option<string>)
    ensures r == ValueStart(after)
  {
    var pos := after;
    while pos != ""
      invariant ValueStart(pos) == ValueStart(after)
      decreases |pos|
    {
      if KindOf(pos[0]).Some? { return Some(pos); }
      pos := pos[1..];
    }
    return None;
  }

  /** The length that the second loop has still to find, from its variables. */
  ghost function Pending(kind: Kind, v: string, pos: string, depth: nat, last: char, len: nat): int
    requires |pos| <= |v| && len <= |v| - |pos|
  {
    match kind
    case String => Quoted(pos, |v| - |pos|, last, len)
    case Object => Closed(|v| - |pos|, Matching('{', '}', pos, depth))
    case Array => Closed(|v| - |pos|, Matching('[', ']', pos, depth))
    case Number => if Numeric(pos) < 0 then 0 else |v| - |pos| + Numeric(pos)
    case Boolean => if pos == "" then 0 else BooleanLength(v)
    case Null => if pos == "" then 0 else NullLength(v)
  }

  ghost function Closed(n: nat, r: int): int { if r < 0 then 0 else n + r + 1 }

  /** The second loop of json_get_next_object: to the end of the value. */
  method MeasureValue(kind: Kind, v: string) returns (len: nat)
    requires kind.String? || v != ""
    ensures len == ValueLength(kind, v)
  {
    len := 0;
    var depth: nat, last := 0, if kind.String? then '"' else ' ';
    var pos := if kind.String? || kind.Boolean? || kind.Null? then v else v[1..];
    while pos != ""
      invariant |pos| <= |v| && len <= |v| - |pos|
      invariant if kind.String? then depth == 0 else len == 0
      invariant kind.Boolean? ==> pos == v || BooleanLength(v) == 0
      invariant kind.Null? ==> pos == v || NullLength(v) == 0
      invariant Pending(kind, v, pos, depth, last, len) == ValueLength(kind, v)
      decreases |pos|
    {
      if kind.Boolean? {
        if "true" <= v || "TRUE" <= v { return 4; }
        if "false" <= v || "FALSE" <= v { return 5; }
      } else if kind.Null? {
        if "null" <= v || "NULL" <= v { return 4; }
      } else if kind.Number? {
        if !Digit(pos[0]) && pos[0] != '.' { return |v| - |pos|; }
      } else if pos[0] == EndMark(kind) {
        if depth == 0 {
          len := |v| - |pos| + if kind.String? then 0 else 1;
          if kind.String? && last == '\\' {
            pos := pos[1..];
            last := First(pos);
            continue;
          }
          return;
        }
        depth := depth - 1;
      } else if pos[0] == StartMark(kind) {
        depth := depth + 1;
      }
      last := pos[0];
      pos := pos[1..];
    }
  }

  function StartMark(kind: Kind): char { match kind case String => '"' case Object => '{' case Array => '[' case _ => '0' }

  function EndMark(kind: Kind): char { match kind case String => '"' case Object => '}' case Array => ']' case _ => ' ' }

  method NextObject(str: string) returns (r: Option<Entry>)
    ensures r == Next(str)
  {
    hide StrChr, EntryAt;
    var open := StrChr(str, '"');
    if open.None? { return None; }
    var name := open.value[1..];
    var close := StrChr(name, '"');
    if close.None? { return None; }
    var key := name[..|name| - |close.value|];
    var colon := StrChr(close.value, ':');
    if colon.None? { return None; }
    r := ReadValue(key, colon.value);
  }

  /** The two loops over the value. */
  method ReadValue(key: string, after: string) returns (r: Option<Entry>)
    ensures r == EntryAt(key, after)
  {
    hide ValueStart, KindOf, ValueLength;
    var at := SeekValue(after);
    if at.None? { return None; }
    var kind := KindOf(at.value[0]).value;
    var v := if kind.String? then at.value[1..] else at.value;
    var len := MeasureValue(kind, v);
    return Some(Entry(key, v, len, kind));
  }

  /** JSON_NV: the name looked for, and the value once it is found. */
  class NameValue {
    const name: string
    var value: Option<string>
    var len: nat
    var kind: Kind

    constructor (name: string)
      ensures this.name == name && value == None && len == 0 && kind == String
    {
      this.name, value, len, kind := name, None, 0, String;
    }

    ghost predicate Holds(r: Option<Entry>) reads this {
      match r
      case None => value == None && len == 0 && kind == String
      case Some(e) => value == Some(e.rest) && len == e.len && kind == e.kind
    }

    /** json_get_value_by_name_cb: notes the value if the name is the right one. */
    method Visit(e: Entry) returns (finish: bool)
      modifies this
      ensures finish == (e.key == name)
      ensures if finish then Holds(Some(e)) else unchanged(this)
    {
      if e.key == name {
        value, len, kind := Some(e.rest), e.len, e.kind;
        return true;
      }
      return false;
    }
  }

  /** json_parse_name_value with json_get_value_by_name_cb; `ok` says that some entry was seen. */
  method ParseNameValue(str: string, nv: NameValue) returns (ok: bool)
    requires nv.Holds(None)
    modifies nv
    ensures ok == (EntriesOf(str) != [])
    ensures nv.Holds(Named(EntriesOf(str), nv.name))
  {
    ok := false;
    assert str == "" ==> Opening('{', str) == None;
    if str == "" { return; }
    var start := GetObject('{', str);
    if start.None? { return; }
    var pos := start.value;
    hide *;
    while pos != ""
      invariant nv.Holds(None)
      invariant (ok || Entries(pos) != []) == (Entries(start.value) != [])
      invariant Named(Entries(pos), nv.name) == Named(Entries(start.value), nv.name)
      decreases |pos|
    {
      var e := NextObject(pos);
      EntriesStep(pos, nv.name);
      if e.None? { break; }
      if e.value.Visible() {
        ok := true;
        var finish := nv.Visit(e.value);
        if finish { break; }
      }
      pos := Cursor(e.value);
    }
    EntriesStep(pos, nv.name);
  }

  lemma EntriesStep(pos: string, name: string)
    ensures pos == "" ==> Next(pos) == None
    ensures Next(pos) == None ==> Entries(pos) == [] && Named([], name) == None
    ensures Next(pos).Some? ==>
      var e := Next(pos).value;
      if e.Visible() then
        && Entries(pos) != []
        && Named(Entries(pos), name) == (if e.key == name then Some(e) else Named(Entries(Cursor(e)), name))
      else Entries(pos) == Entries(Cursor(e))
  {
    if Next(pos).Some? && Next(pos).value.Visible() {
      var e := Next(pos).value;
      hide Next;
      assert Entries(pos) == [e] + Entries(Cursor(e));
    }
  }

  /** json_get_value_by_name; a null value is withheld from a caller that asks for the type. */
  method GetValueByName(str: string, name: string, wantKind: bool)
    returns (value: Option<string>, len: nat, kind: Kind)
    ensures match Named(EntriesOf(str), name)
            case None => value == None && len == 0 && kind == String
            case Some(e) => (len, kind) == (e.len, e.kind) && value == if wantKind && e.kind.Null? then None else Some(e.rest)
  {
    var nv := new NameValue(name);
    var ok := ParseNameValue(str, nv);
    len, kind := 0, String;
    if ok {
      len, kind := nv.len, nv.kind;
      if wantKind && nv.kind.Null? { nv.value := None; }
    }
    value := nv.value;
  }

  // ---------------------------------------------------------------- json_token.c

  /** The entry a dotted path leads to: every step scans on from the value that the last one found. */
  function PathEntry(src: string, path: string): Option<Entry>
    decreases |path|
  {
    match StrChr(path, '.')
    case None => Named(EntriesOf(src), path)
    case Some(dot) =>
      match Named(EntriesOf(src), path[..|path| - |dot|])
      case None => None
      case Some(e) => PathEntry(e.rest, dot[1..])
  }

  /** LITE_json_value_of */
  method ValueOf(key: string, src: string) returns (r: Option<string>)
    ensures r == match PathEntry(src, key) case None => None case Some(e) => Some(e.Text())
  {
    var from, path := src, key;
    hide PathEntry, EntriesOf, Named, StrChr;
    while true
      invariant PathEntry(from, path) == PathEntry(src, key)
      decreases |path|
    {
      PathStep(from, path);
      var dot := StrChr(path, '.');
      if dot.None? { break; }
      var value, _, _ := GetValueByName(from, path[..|path| - |dot.value|], false);
      if value.None? { return None; }
      from, path := value.value, dot.value[1..];
    }
    var value, len, _ := GetValueByName(from, path, false);
    if value.None? { return None; }
    return Some(Copied(value.value, len));
  }

  lemma PathStep(src: string, path: string)
    ensures match StrChr(path, '.')
            case None => PathEntry(src, path) == Named(EntriesOf(src), path)
            case Some(dot) => PathEntry(src, path) == match Named(EntriesOf(src), path[..|path| - |dot|])
                                                      case None => None
                                                      case Some(e) => PathEntry(e.rest, dot[1..])
  {
  }

  /** LITE_format_string: a formatted text is cut to 511 characters. */
  function Format(s: string): (r: string)
    ensures |s| <= 511 ==> r == s
    ensures |s| > 511 ==> |r| == 511 && r <= s
  {
    if |s| <= 511 then s else s[..511]
  }

  /** The keys listed from a place in an object on. */
  function KeysAt(pos: string, prefix: string): seq<string>
    decreases |pos|, 2
  {
    match Next(pos)
    case None => []
    case Some(e) =>
      EntryKeys(e, prefix, pos) + KeysAt(Cursor(e), prefix)
  }

  /** The keys listed for an entry. */
  function EntryKeys(e: Entry, prefix: string, ghost within: string): seq<string>
    requires |e.rest| < |within|
    decreases |within|, 1
  {
    if e.Visible() then [Format(prefix + e.key)] + NestedKeys(e, prefix, within) else []
  }

  lemma KeysStep(pos: string, prefix: string)
    ensures pos == "" ==> Next(pos) == None
    ensures match Next(pos)
            case None => KeysAt(pos, prefix) == [] && Listed(KeysAt(pos, prefix)) == []
            case Some(e) => Listed(KeysAt(pos, prefix)) == Listed(EntryKeys(e, prefix, pos)) + Listed(KeysAt(Cursor(e), prefix))
  {
    if Next(pos).Some? {
      hide Next;
      ListedSum(EntryKeys(Next(pos).value, prefix, pos), KeysAt(Cursor(Next(pos).value), prefix));
    }
  }

  lemma KeysStart(src: string, prefix: string)
    ensures KeysIn(src, prefix) == KeysAt(match Opening('{', src) case None => "" case Some(pos) => pos, prefix)
  {
    KeysStep("", prefix);
  }

  lemma ListedSum(a: seq<string>, b: seq<string>)
    ensures Listed(a + b) == Listed(a) + Listed(b)
  {
  }

  /** The keys listed for a value: those inside it, if it is an object. */
  function NestedKeys(e: Entry, prefix: string, ghost within: string): seq<string>
    requires |e.rest| < |within|
    decreases |within|, 0
  {
    if !e.kind.Object? then []
    else
      match Opening('{', Format(e.Text()))
      case None => []
      case Some(pos) => KeysAt(pos, Format(prefix + e.key + "."))
  }

  /** What LITE_json_keys_of lists for a text. */
  function KeysIn(src: string, prefix: string): seq<string> {
    match Opening('{', src)
    case None => []
    case Some(pos) => KeysAt(pos, prefix)
  }

  /** The list that LITE_json_keys_of fills; the last entry of a finished list has no key. */
  class KeyList {
    var keys: seq<Option<string>>

    constructor () ensures keys == [] { keys := []; }

    /** LITE_json_keys_of: an empty prefix starts a new list and finishes it. */
    method KeysOf(src: string, prefix: string)
      modifies this
      ensures prefix == "" ==> keys == Listed(KeysIn(src, "")) + [None]
      ensures prefix != "" ==> keys == old(keys) + Listed(KeysIn(src, prefix))
      decreases |src|, 2
    {
      hide *;
      if prefix == "" { keys := []; }
      Collect(src, prefix);
      if prefix == "" { keys := keys + [None]; }
    }

    /** The loop of LITE_json_keys_of. */
    method Collect(src: string, prefix: string)
      modifies this
      ensures keys == old(keys) + Listed(KeysIn(src, prefix))
      decreases |src|, 1
    {
      hide *;
      var start := GetObject('{', src);
      var pos := if start.None? then "" else start.value;
      KeysStart(src, prefix);
      ghost var all := Listed(KeysAt(pos, prefix));
      while pos != ""
        invariant |pos| <= |src|
        invariant keys + Listed(KeysAt(pos, prefix)) == old(keys) + all
        decreases |pos|
      {
        var e := NextObject(pos);
        KeysStep(pos, prefix);
        if e.None? { pos := ""; break; }
        AddEntry(e.value, prefix, pos, |src|);
        pos := Cursor(e.value);
      }
      KeysStep(pos, prefix);
    }

    /** The body of the loop of LITE_json_keys_of. */
    method AddEntry(e: Entry, prefix: string, ghost within: string, ghost size: nat)
      requires |e.rest| < |within| <= size
      modifies this
      ensures keys == old(keys) + Listed(EntryKeys(e, prefix, within))
      decreases size, 0
    {
      hide KeysAt, Opening, Next, Cursor;
      if e.Visible() {
        keys := keys + [Some(Format(prefix + e.key))];
        ListedSum([Format(prefix + e.key)], NestedKeys(e, prefix, within));
        if e.kind.Object? {
          KeysOf(Format(e.Text()), Format(prefix + e.key + "."));
        }
      }
    }
  }

  function Listed(keys: seq<string>): seq<Option<string>> {
    seq(|keys|, i requires 0 <= i < |keys| => Some(keys[i]))
  }
}

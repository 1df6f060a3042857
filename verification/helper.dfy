/**
 * The string and collection helpers of the `Helper` class that compute on values:
 * `isBlank`, `combineUrl`, `arrayOfInstances`, `numbers`, `findInArray`,
 * `getShortClassName` and `getFQCN`.
 */
module Helpers {
  import opened Wrappers
  import opened Php
  import opened Errors

  // ---------------------------------------------------------------------------
  // isBlank

  /** `isBlank($var)`: empty in PHP's sense, except that the string "0" (and "0.0", which
      `empty()` never accepts anyway) does not count as blank. */
  predicate IsBlank(v: Value) {
    Empty(v) && v != Str("0") && v != Str("0.0")
  }

  /** The blank values are exactly null, false, 0, "" and the empty array. */
  lemma BlankValues(v: Value)
    ensures IsBlank(v) <==> v == Null || v == Bool(false) || v == Int(0) || v == Str("") || v == Arr([])
  {
  }

  // ---------------------------------------------------------------------------
  // combineUrl

  /** The components of a parsed URL (`parse_url`'s array); a missing key is `None`. */
  datatype UrlParts = UrlParts(
    scheme: Option<string>, host: Option<string>, port: Option<int>,
    user: Option<string>, pass: Option<string>,
    path: Option<string>, query: Option<string>, fragment: Option<string>)

  /** `$scheme`: the scheme and "://", or "" when there is none. */
  function SchemePart(u: UrlParts): string {
    if u.scheme.Some? then u.scheme.value + "://" else ""
  }

  /** `$user`: the user name, or "". */
  function UserPart(u: UrlParts): string {
    if u.user.Some? then u.user.value else ""
  }

  /** `$pass`: ":" and the password, or "". */
  function PassPart(u: UrlParts): string {
    if u.pass.Some? then ":" + u.pass.value else ""
  }

  /** `$host`: the host, or "". */
  function HostPart(u: UrlParts): string {
    if u.host.Some? then u.host.value else ""
  }

  /** `$port`: ":" and the port in decimal, or "". */
  function PortPart(u: UrlParts): string {
    if u.port.Some? then ":" + IntToDecimal(u.port.value) else ""
  }

  /** `$path`: the path, or "". */
  function PathPart(u: UrlParts): string {
    if u.path.Some? then u.path.value else ""
  }

  /** `$query`: "?" and the query, or "". */
  function QueryPart(u: UrlParts): string {
    if u.query.Some? then "?" + u.query.value else ""
  }

  /** `$fragment`: "#" and the fragment, or "". */
  function FragmentPart(u: UrlParts): string {
    if u.fragment.Some? then "#" + u.fragment.value else ""
  }

  /** Whether the credentials end with '@': a truthy user name, or any password. */
  predicate HasCredentials(u: UrlParts) {
    (u.user.Some? && Truthy(Str(u.user.value))) || u.pass.Some?
  }

  /** What comes before the '@': scheme "://", user name, ":" password. */
  function UrlHead(u: UrlParts): string {
    SchemePart(u) + UserPart(u) + PassPart(u)
  }

  /** What comes after the '@': host, ":" port, path, "?" query, "#" fragment. */
  function UrlTail(u: UrlParts): string {
    HostPart(u) + PortPart(u) + PathPart(u) + QueryPart(u) + FragmentPart(u)
  }

  /** `combineUrl($parsed_url)`: scheme "://", user, ":" password, "@", host, ":" port,
      path, "?" query and "#" fragment, each only when present; the '@' follows the
      password when the user name or the password text is truthy. */
  function CombineUrl(u: UrlParts): (r: string)
  {
    var scheme := SchemePart(u);
    var host := HostPart(u);
    var port := PortPart(u);
    var user := UserPart(u);
    var pass := PassPart(u);
    var credentials := if Truthy(Str(user)) || Truthy(Str(pass)) then pass + "@" else "";
    var path := PathPart(u);
    var query := QueryPart(u);
    var fragment := FragmentPart(u);
    scheme + user + credentials + host + port + path + query + fragment
  }

  /** The assembled URL is the part before the '@', the '@' when there are credentials,
      and the part after it. */
  lemma CombineUrlSplit(u: UrlParts)
    ensures CombineUrl(u) == UrlHead(u) + (if HasCredentials(u) then "@" else "") + UrlTail(u)
  {
    var scheme, user, pass := SchemePart(u), UserPart(u), PassPart(u);
    var host, port, path, query, fragment := HostPart(u), PortPart(u), PathPart(u), QueryPart(u), FragmentPart(u);
    var at := if HasCredentials(u) then "@" else "";
    assert u.pass.Some? ==> pass[0] == ':';
    assert (Truthy(Str(user)) || Truthy(Str(pass))) == HasCredentials(u);
    var head := scheme + user + pass;
    assert CombineUrl(u) == scheme + user + (pass + at) + host + port + path + query + fragment;
    calc {
      scheme + user + (pass + at) + host + port + path + query + fragment;
      { Assoc(scheme + user, pass, at); }
      head + at + host + port + path + query + fragment;
      { Assoc(head + at, host, port); }
      head + at + (host + port) + path + query + fragment;
      { Assoc(head + at, host + port, path); }
      head + at + (host + port + path) + query + fragment;
      { Assoc(head + at, host + port + path, query); }
      head + at + (host + port + path + query) + fragment;
      { Assoc(head + at, host + port + path + query, fragment); }
      head + at + (host + port + path + query + fragment);
    }
  }

  /** Concatenation regroups. */
  lemma Assoc(a: string, b: string, c: string)
    ensures a + (b + c) == a + b + c
  {
  }

  /** The assembled URL is the part before the '@', then the '@' exactly when there are
      credentials, then the part after it. */
  lemma CombineUrlShape(u: UrlParts)
    ensures var r := CombineUrl(u);
      |r| == |UrlHead(u)| + (if HasCredentials(u) then 1 else 0) + |UrlTail(u)| &&
      r[..|UrlHead(u)|] == UrlHead(u) && r[|r| - |UrlTail(u)|..] == UrlTail(u) &&
      (HasCredentials(u) <==> |r| > |UrlHead(u)| + |UrlTail(u)|) &&
      (HasCredentials(u) ==> r[|UrlHead(u)|] == '@')
  {
    var r, head, tail := CombineUrl(u), UrlHead(u), UrlTail(u);
    var at := if HasCredentials(u) then "@" else "";
    CombineUrlSplit(u);
    Split(head + at, tail);
    Split(head, at);
    assert r[..|head|] == (head + at)[..|head|];
  }

  /** The assembled URL starts with the scheme and "://". */
  lemma CombineUrlScheme(u: UrlParts)
    requires u.scheme.Some?
    ensures CombineUrl(u)[..|u.scheme.value| + 3] == u.scheme.value + "://"
  {
    var r, head, scheme := CombineUrl(u), UrlHead(u), SchemePart(u);
    CombineUrlShape(u);
    Assoc(scheme, UserPart(u), PassPart(u));
    Split(scheme, UserPart(u) + PassPart(u));
    assert r[..|scheme|] == r[..|head|][..|scheme|];
  }

  /** The assembled URL ends with "#" and the fragment. */
  lemma CombineUrlFragment(u: UrlParts)
    requires u.fragment.Some?
    ensures var r := CombineUrl(u); r[|r| - |u.fragment.value| - 1..] == "#" + u.fragment.value
  {
    var r, tail, fragment := CombineUrl(u), UrlTail(u), FragmentPart(u);
    CombineUrlShape(u);
    Split(HostPart(u) + PortPart(u) + PathPart(u) + QueryPart(u), fragment);
    assert r[|r| - |fragment|..] == r[|r| - |tail|..][|tail| - |fragment|..];
  }

  /** A string made of two pieces starts with the first and ends with the second. */
  lemma Split(a: string, b: string)
    ensures |a + b| == |a| + |b| && (a + b)[..|a|] == a && (a + b)[|a|..] == b
  {
  }

  /** Without a user name or password, nothing separates the scheme from the host. */
  lemma NoCredentialsNoAt(u: UrlParts)
    requires u.user.None? && u.pass.None? && u.scheme.Some? && u.host.Some?
    ensures CombineUrl(u)[..|u.scheme.value| + 3 + |u.host.value|] == u.scheme.value + "://" + u.host.value
  {
  }

  // ---------------------------------------------------------------------------
  // arrayOfInstances

  /** `arrayOfInstances($object, $class)`: an array every item of which is an instance of
      the class (so the empty array qualifies); anything but an array does not. */
  method ArrayOfInstances(v: Value, cls: string) returns (b: bool)
    ensures b <==> v.Arr? && forall i :: 0 <= i < |v.entries| ==> InstanceOf(v.entries[i].val, cls)
  {
    if !v.Arr? {
      return false;
    }
    var i := 0;
    while i < |v.entries|
      invariant 0 <= i <= |v.entries|
      invariant forall j :: 0 <= j < i ==> InstanceOf(v.entries[j].val, cls)
    {
      if !InstanceOf(v.entries[i].val, cls) {
        return false;
      }
      i := i + 1;
    }
    return true;
  }

  // ---------------------------------------------------------------------------
  // numbers

  /** The decimal texts of `from`, `from + 1`, ..., `length` numbers in all. */
  function Decimals(from: int, length: nat): (ds: seq<string>)
    ensures |ds| == length
  {
    seq(length, k requires 0 <= k < length => IntToDecimal(from + k))
  }

  lemma NoCommaInDecimal(n: int)
    ensures ',' !in IntToDecimal(n)
  {
    var d := Digits(if n < 0 then -n else n);
    assert forall i :: 0 <= i < |d| ==> IsDigit(d[i]);
    if n < 0 {
      assert IntToDecimal(n) == "-" + d;
    }
  }

  /** `numbers($from, $length)`: the integers from `from` on, `length` of them, written in
      decimal and joined with commas; "" when `length` is not positive. */
  method Numbers(from: int, length: int) returns (r: string)
    ensures length <= 0 ==> r == ""
    ensures length > 0 ==> Explode(',', r) == Decimals(from, length)
  {
    var numbers: seq<int> := [];
    var i := from;
    while i < from + length
      invariant from <= i <= from + (if length > 0 then length else 0)
      invariant |numbers| == i - from
      invariant forall k :: 0 <= k < |numbers| ==> numbers[k] == from + k
    {
      numbers := numbers + [i];
      i := i + 1;
    }
    var texts := seq(|numbers|, k requires 0 <= k < |numbers| => IntToDecimal(numbers[k]));
    r := Implode(',', texts);
    if length > 0 {
      assert texts == Decimals(from, length);
      forall k | 0 <= k < |texts|
        ensures ',' !in texts[k]
      {
        NoCommaInDecimal(numbers[k]);
      }
      ExplodeImplode(',', texts);
    }
  }

  /** Each piece of `numbers` reads back, through `intval`, as the integer it was made from. */
  lemma DecimalsReadBack(from: int, length: nat, k: nat)
    requires k < length && IntMin <= from + k <= IntMax
    ensures IntVal(Str(Decimals(from, length)[k])) == from + k
  {
    assert Decimals(from, length)[k] == IntToDecimal(from + k);
    IntValOfDecimal(from + k);
  }

  // ---------------------------------------------------------------------------
  // findInArray

  /** `$row[$column]` as `findInArray` reads it: the stored value, or null when the row
      has no such key or is a scalar or null; an object cannot be read as an array, and the
      read throws. */
  function Cell(row: Value, column: Key): (r: Result<Value, Error>)
    ensures r.Failure? <==> row.Obj?
  {
    match row
    case Obj(cls, _, _) => Failure(EngineError(ObjectAsArray(cls)))
    case Arr(es) =>
      (match Find(es, column)
       case Some(v) => Success(v)
       case None => Success(Null))
    case _ => Success(Null)
  }

  /** A row matches when every requested column holds exactly (`===`) the requested value. */
  predicate Matches(row: Value, columns: seq<Entry>) {
    forall j :: 0 <= j < |columns| ==> Cell(row, columns[j].key) == Success(columns[j].val)
  }

  /** A row whose first cell read throws: an object, once there is a column to read. */
  predicate Unreadable(row: Value, columns: seq<Entry>) {
    row.Obj? && |columns| > 0
  }

  /** The search ends at a row that throws or at a row that matches. */
  predicate Stops(row: Value, columns: seq<Entry>) {
    Unreadable(row, columns) || Matches(row, columns)
  }

  /** `findInArray($array, $columns)`: the first row matching every column, or null; the
      search throws instead when it reaches an object row before any match. */
  method FindInArray(list: Value, columns: seq<Entry>) returns (r: Result<Value, Error>)
    ensures var rows := Members(list);
      (forall i :: 0 <= i < |rows| ==> !Stops(rows[i].val, columns)) ==> r == Success(Null)
    ensures var rows := Members(list);
      forall i :: (0 <= i < |rows| && Stops(rows[i].val, columns) &&
        (forall j :: 0 <= j < i ==> !Stops(rows[j].val, columns))) ==>
        r == if Unreadable(rows[i].val, columns) then Failure(EngineError(ObjectAsArray(rows[i].val.cls)))
             else Success(rows[i].val)
  {
    var rows := Members(list);
    var i := 0;
    while i < |rows|
      invariant 0 <= i <= |rows|
      invariant forall j :: 0 <= j < i ==> !Stops(rows[j].val, columns)
    {
      var row := rows[i].val;
      var matches := true;
      var c := 0;
      while c < |columns|
        invariant 0 <= c <= |columns|
        invariant c > 0 ==> !row.Obj?
        invariant matches <==> forall j :: 0 <= j < c ==> Cell(row, columns[j].key) == Success(columns[j].val)
      {
        var cell := Cell(row, columns[c].key);
        if cell.Failure? {
          assert Unreadable(rows[i].val, columns) && cell.error == EngineError(ObjectAsArray(row.cls));
          return Failure(cell.error);
        }
        if cell.value != columns[c].val {
          matches := false;
        }
        c := c + 1;
      }
      if matches {
        assert Matches(rows[i].val, columns) && !Unreadable(rows[i].val, columns);
        return Success(row);
      }
      i := i + 1;
    }
    return Success(Null);
  }

  // ---------------------------------------------------------------------------
  // getShortClassName and getFQCN

  /** `getShortClassName($object)` on the object's class name: the part after the last
      backslash, or the whole name when there is none. */
  function ShortClassName(name: string): (r: string)
    ensures '\\' !in r
    ensures |r| <= |name| && name[|name| - |r|..] == r
    ensures |r| < |name| ==> name[|name| - |r| - 1] == '\\'
  {
    LastPiece('\\', name);
    var parts := Explode('\\', name);
    parts[|parts| - 1]
  }

  /** The last piece of `explode` is the text after the last separator. */
  lemma {:induction false} LastPiece(sep: char, s: string)
    ensures var e := Explode(sep, s); var l := e[|e| - 1];
      |l| <= |s| && s[|s| - |l|..] == l && (|l| < |s| ==> s[|s| - |l| - 1] == sep)
  {
    if s != [] {
      var t := s[1..];
      LastPiece(sep, t);
      var rest := Explode(sep, t);
      var e := Explode(sep, s);
      var l := e[|e| - 1];
      assert s == [s[0]] + t;
      if s[0] == sep {
        assert e == [""] + rest;
        assert l == rest[|rest| - 1];
        PieceAfterPrefix(sep, s[0], t, l);
      } else if |rest| == 1 {
        ImplodeExplode(sep, t);
        assert e == [[s[0]] + rest[0]];
        assert l == s;
      } else {
        assert e == [[s[0]] + rest[0]] + rest[1..];
        assert l == rest[|rest| - 1];
        SeparatorWhenSplit(sep, t);
        assert sep !in l;
        PieceAfterPrefix(sep, s[0], t, l);
      }
    }
  }

  /** A piece that ends `t` after a separator (or that is all of `t`, after a leading
      separator `c`) still does so in `[c] + t`. */
  lemma PieceAfterPrefix(sep: char, c: char, t: string, l: string)
    requires |l| <= |t| && t[|t| - |l|..] == l && (|l| < |t| ==> t[|t| - |l| - 1] == sep)
    requires |l| < |t| || c == sep
    ensures var s := [c] + t;
      |l| < |s| && s[|s| - |l|..] == l && s[|s| - |l| - 1] == sep
  {
    var s := [c] + t;
    assert s[|s| - |l|..] == t[|t| - |l|..];
  }

  /** A string that `explode` cuts into several pieces holds the separator. */
  lemma SeparatorWhenSplit(sep: char, s: string)
    requires |Explode(sep, s)| > 1
    ensures sep in s
  {
    var parts := Explode(sep, s);
    ImplodeExplode(sep, s);
    assert s == parts[0] + [sep] + Implode(sep, parts[1..]);
    assert s[|parts[0]|] == sep;
  }

  /** The kinds of token `getFQCN` tells apart; every other kind is `OtherId`, and a
      one-character token without a kind (`;`, `{`, ...) is `NoId`. */
  datatype TokenId = NoId | TNamespace | TClass | TString | OtherId

  /** One entry of `token_get_all`: its kind and its text. */
  datatype Token = Token(id: TokenId, lexeme: string)

  /** Whether a namespace statement is open after the first `n` tokens: opened by
      `namespace`, closed by `;`. */
  predicate NsOpen(t: seq<Token>, n: nat)
    requires n <= |t|
  {
    if n == 0 then false
    else if t[n - 1].lexeme == ";" then false
    else t[n - 1].id == TNamespace || NsOpen(t, n - 1)
  }

  /** Whether a `class` keyword is among the first `n` tokens. */
  predicate ClassSeen(t: seq<Token>, n: nat)
    requires n <= |t|
  {
    n > 0 && (t[n - 1].id == TClass || ClassSeen(t, n - 1))
  }

  /** The names collected from the first `n` tokens: the identifiers inside namespace
      statements. */
  function NsParts(t: seq<Token>, n: nat): seq<string>
    requires n <= |t|
  {
    if n == 0 then []
    else NsParts(t, n - 1) + (if NsOpen(t, n) && t[n - 1].id == TString then [t[n - 1].lexeme] else [])
  }

  /** How one more token updates the scan state. */
  lemma ScanStep(t: seq<Token>, i: nat)
    requires i < |t|
    ensures NsOpen(t, i + 1) == (t[i].lexeme != ";" && (t[i].id == TNamespace || NsOpen(t, i)))
    ensures ClassSeen(t, i + 1) == (t[i].id == TClass || ClassSeen(t, i))
    ensures NsParts(t, i + 1) == NsParts(t, i) + (if NsOpen(t, i + 1) && t[i].id == TString then [t[i].lexeme] else [])
  {
  }

  /** Token `n` is an identifier at or after a `class` keyword: the class name `getFQCN` takes. */
  predicate ClassNameAt(t: seq<Token>, n: int) {
    0 <= n < |t| && t[n].id == TString && ClassSeen(t, n + 1)
  }

  /** `getFQCN($phpCode)` on the code's tokens: the namespace names collected before the
      class name, the class name, joined with backslashes after a leading one; null when no
      identifier follows a `class` keyword. */
  method GetFQCN(tokens: seq<Token>) returns (r: Option<string>)
    ensures r.None? <==> forall n :: 0 <= n < |tokens| ==> !ClassNameAt(tokens, n)
    ensures r.Some? ==>
      exists n :: ClassNameAt(tokens, n) && (forall j :: 0 <= j < n ==> !ClassNameAt(tokens, j)) &&
        r.value == "\\" + Implode('\\', NsParts(tokens, n + 1) + [tokens[n].lexeme])
  {
    var parts: seq<string> := [];
    var isNamespaceBlock := false;
    var isClassBlock := false;
    var i := 0;
    while i < |tokens|
      invariant 0 <= i <= |tokens|
      invariant isNamespaceBlock == NsOpen(tokens, i)
      invariant isClassBlock == ClassSeen(tokens, i)
      invariant parts == NsParts(tokens, i)
      invariant forall j :: 0 <= j < i ==> !ClassNameAt(tokens, j)
    {
      var token := tokens[i];
      ScanStep(tokens, i);
      if token.id == TNamespace {
        isNamespaceBlock := true;
      }
      if token.id == TClass {
        isClassBlock := true;
      }
      if token.lexeme == ";" {
        isNamespaceBlock := false;
      }
      if isNamespaceBlock && token.id == TString {
        parts := parts + [token.lexeme];
      }
      assert isNamespaceBlock == NsOpen(tokens, i + 1);
      assert isClassBlock == ClassSeen(tokens, i + 1);
      assert parts == NsParts(tokens, i + 1);
      if isClassBlock && token.id == TString {
        parts := parts + [token.lexeme];
        assert ClassNameAt(tokens, i);
        return Some("\\" + Implode('\\', parts));
      }
      i := i + 1;
    }
    return None;
  }

  /** Splitting a string that starts with the separator gives an empty first piece. */
  lemma ExplodeLeading(sep: char, s: string)
    ensures Explode(sep, [sep] + s) == [""] + Explode(sep, s)
  {
    assert ([sep] + s)[1..] == s;
  }

  /** `getShortClassName` of what `getFQCN` returns is the class name, when no token text
      holds a backslash. */
  lemma ShortNameOfFQCN(parts: seq<string>, name: string)
    requires forall i :: 0 <= i < |parts| ==> '\\' !in parts[i]
    requires '\\' !in name
    ensures ShortClassName("\\" + Implode('\\', parts + [name])) == name
  {
    var all := parts + [name];
    ExplodeImplode('\\', all);
    ExplodeLeading('\\', Implode('\\', all));
  }

  /** The usual file shape, `namespace A\B; class C`, gives `\A\B\C`. */
  lemma NamespacedClass()
    ensures var t := [Token(TNamespace, "namespace"), Token(TString, "A"), Token(OtherId, "\\"), Token(TString, "B"),
      Token(NoId, ";"), Token(TClass, "class"), Token(TString, "C")];
      ClassNameAt(t, 6) && (forall j :: 0 <= j < 6 ==> !ClassNameAt(t, j)) &&
      "\\" + Implode('\\', NsParts(t, 7) + [t[6].lexeme]) == "\\A\\B\\C"
  {
    var t := [Token(TNamespace, "namespace"), Token(TString, "A"), Token(OtherId, "\\"), Token(TString, "B"),
      Token(NoId, ";"), Token(TClass, "class"), Token(TString, "C")];
    assert !ClassSeen(t, 5) && ClassSeen(t, 7);
    assert NsOpen(t, 4) && !NsOpen(t, 5) && !NsOpen(t, 6) && !NsOpen(t, 7);
    assert NsParts(t, 2) == ["A"];
    assert NsParts(t, 4) == ["A", "B"];
    assert NsParts(t, 7) == ["A", "B"];
    assert Implode('\\', ["A", "B", "C"]) == "A" + ['\\'] + Implode('\\', ["B", "C"]);
    assert Implode('\\', ["B", "C"]) == "B" + ['\\'] + "C";
  }
}

/**
 JSON pointers as section 4 of RFC 6901 evaluates them: split at '/', then in
 each token replace "~1" by '/' and after that "~0" by '~'.
 */
module JsonPointer {
  import opened Wrappers
  import opened JsonValue

  // --- Tokens -------------------------------------------------------------

  /** Replace every occurrence of "~" followed by `mark`, scanning left to right. */
  function Replace(s: string, mark: char, to: char): string {
    if |s| < 2 then s
    else if s[0] == '~' && s[1] == mark then [to] + Replace(s[2..], mark, to)
    else [s[0]] + Replace(s[1..], mark, to)
  }

  function Unescape(token: string): string { Replace(Replace(token, '1', '/'), '0', '~') }

  /** Split at every '/'. */
  function Split(s: string): (parts: seq<string>)
    ensures |parts| >= 1
  {
    if s == [] then [[]]
    else
      var rest := Split(s[1..]);
      if s[0] == '/' then [[]] + rest else [[s[0]] + rest[0]] + rest[1..]
  }

  /** The reference tokens of a pointer; absent when it is neither empty nor starts with '/'. */
  function Tokens(pointer: string): Option<seq<string>> {
    if pointer == [] then Some([])
    else if pointer[0] != '/' then None
    else
      var parts := Split(pointer[1..]);
      Some(seq(|parts|, i requires 0 <= i < |parts| => Unescape(parts[i])))
  }

  // --- Evaluation ---------------------------------------------------------

  predicate Digits(s: string) { s != [] && forall i | 0 <= i < |s| :: '0' <= s[i] <= '9' }

  function Number(s: string): nat
    requires forall i | 0 <= i < |s| :: '0' <= s[i] <= '9'
  {
    if s == [] then 0 else 10 * Number(s[..|s| - 1]) + (s[|s| - 1] - '0') as nat
  }

  /** An array index: decimal digits without a leading zero. */
  function Index(token: string): Option<nat> {
    if Digits(token) && (token[0] == '0' ==> |token| == 1) then Some(Number(token)) else None
  }

  function Child(value: Json, token: string): Option<Json> {
    match value
    case Object(fields) => if token in fields then Some(fields[token]) else None
    case Array(items) =>
      var index := Index(token);
      if index.Some? && index.value < |items| then Some(items[index.value]) else None
    case _ => None
  }

  function Walk(value: Json, tokens: seq<string>): Option<Json>
    decreases |tokens|
  {
    if tokens == [] then Some(value)
    else
      match Child(value, tokens[0])
      case None => None
      case Some(child) => Walk(child, tokens[1..])
  }

  function Pointer(value: Json, pointer: string): Option<Json> {
    match Tokens(pointer)
    case None => None
    case Some(tokens) => Walk(value, tokens)
  }

  // --- Every path has a pointer -------------------------------------------

  function Escape(token: string): string {
    if token == [] then []
    else (if token[0] == '~' then "~0" else if token[0] == '/' then "~1" else [token[0]]) + Escape(token[1..])
  }

  function Print(tokens: seq<string>): string {
    if tokens == [] then [] else "/" + Escape(tokens[0]) + Print(tokens[1..])
  }

  /** Escaping leaves no '/' and no '~' that is not followed by '0' or '1'. */
  lemma {:induction false} EscapedHasNoSlash(token: string)
    ensures '/' !in Escape(token)
  {
    if token != [] {
      EscapedHasNoSlash(token[1..]);
    }
  }

  /** What the first replacement must leave: every '~' written "~0", every '/' itself. */
  function HalfEscape(token: string): string {
    if token == [] then []
    else (if token[0] == '~' then "~0" else [token[0]]) + HalfEscape(token[1..])
  }

  lemma {:induction false} FirstReplacement(token: string)
    ensures Replace(Escape(token), '1', '/') == HalfEscape(token)
  {
    if token != [] {
      FirstReplacement(token[1..]);
      var rest := Escape(token[1..]);
      if token[0] == '~' {
        assert Escape(token) == ['~', '0'] + rest;
        assert Escape(token)[1..] == ['0'] + rest;
        assert (['0'] + rest)[1..] == rest;
        assert rest == [] ==> Replace(rest, '1', '/') == [];
      } else if token[0] == '/' {
        assert Escape(token)[2..] == rest;
      } else {
        assert Escape(token)[1..] == rest;
        assert rest == [] ==> Replace(rest, '1', '/') == [];
      }
    }
  }

  lemma {:induction false} SecondReplacement(token: string)
    ensures Replace(HalfEscape(token), '0', '~') == token
  {
    if token != [] {
      SecondReplacement(token[1..]);
      var rest := HalfEscape(token[1..]);
      if token[0] == '~' {
        assert HalfEscape(token)[2..] == rest;
      } else {
        assert HalfEscape(token)[1..] == rest;
        assert rest == [] ==> Replace(rest, '0', '~') == [];
      }
    }
  }

  lemma UnescapeEscape(token: string)
    ensures Unescape(Escape(token)) == token
  {
    FirstReplacement(token);
    SecondReplacement(token);
  }

  lemma {:induction false} SplitPrefix(head: string, rest: string)
    requires '/' !in head
    ensures Split(head + rest) == [head + Split(rest)[0]] + Split(rest)[1..]
  {
    if head == [] {
      assert head + rest == rest;
      assert head + Split(rest)[0] == Split(rest)[0];
    } else {
      assert (head + rest)[1..] == head[1..] + rest;
      SplitPrefix(head[1..], rest);
      assert [head[0]] + (head[1..] + Split(rest)[0]) == head + Split(rest)[0];
    }
  }

  function EscapeAll(tokens: seq<string>): (parts: seq<string>)
    ensures |parts| == |tokens|
    ensures forall i | 0 <= i < |tokens| :: parts[i] == Escape(tokens[i])
  {
    seq(|tokens|, i requires 0 <= i < |tokens| => Escape(tokens[i]))
  }

  lemma SplitSlash(head: string, rest: string)
    requires '/' !in head && rest != [] && rest[0] == '/'
    ensures Split(head + rest) == [head] + Split(rest[1..])
  {
    SplitPrefix(head, rest);
    assert head + [] == head;
  }

  lemma SplitPlain(head: string)
    requires '/' !in head
    ensures Split(head) == [head]
  {
    SplitPrefix(head, []);
    assert head + [] == head;
  }

  lemma SlashFirst(b: string, c: string)
    ensures var s := "/" + b + c; s != [] && s[0] == '/' && s[1..] == b + c
  {}

  lemma PrintShape(tokens: seq<string>)
    requires tokens != []
    ensures Print(tokens) != [] && Print(tokens)[0] == '/' && Print(tokens)[1..] == Escape(tokens[0]) + Print(tokens[1..])
  {
    SlashFirst(Escape(tokens[0]), Print(tokens[1..]));
  }

  lemma EscapeAllShape(tokens: seq<string>)
    requires tokens != []
    ensures EscapeAll(tokens) == [Escape(tokens[0])] + EscapeAll(tokens[1..])
  {}

  lemma {:induction false} SplitPrint(tokens: seq<string>)
    requires tokens != []
    ensures Print(tokens)[0] == '/' && Split(Print(tokens)[1..]) == EscapeAll(tokens)
  {
    var head, rest := Escape(tokens[0]), Print(tokens[1..]);
    PrintShape(tokens);
    EscapeAllShape(tokens);
    EscapedHasNoSlash(tokens[0]);
    if tokens[1..] == [] {
      assert head + rest == head;
      SplitPlain(head);
    } else {
      SplitPrint(tokens[1..]);
      SplitSlash(head, rest);
    }
  }

  /** Printing and reading back a path of arbitrary keys gives the same path. */
  lemma PointerRoundTrip(value: Json, tokens: seq<string>)
    ensures Tokens(Print(tokens)) == Some(tokens)
    ensures Pointer(value, Print(tokens)) == Walk(value, tokens)
  {
    if tokens != [] {
      SplitPrint(tokens);
      forall i | 0 <= i < |tokens|
        ensures Unescape(EscapeAll(tokens)[i]) == tokens[i]
      {
        UnescapeEscape(tokens[i]);
      }
      assert Tokens(Print(tokens)).value == tokens;
    }
  }
}

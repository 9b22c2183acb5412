/**
 `runner.pointer`: a JSON Pointer evaluated token by token, with the two escapes undone by two successive
 replacements (sections 3 and 4 of RFC 6901; unlike the RFC, the code refuses the empty pointer).
 */
module JsonPointer {
  import opened Wrappers
  import opened JsonValues
  import opened Texts

  // ---------------------------------------------------------------- splitting and replacing

  /** `text.split(c)` */
  function Split(text: string, c: char): (parts: seq<string>)
    ensures parts != []
    decreases |text|
  {
    if c !in text then [text]
    else
      var i := IndexOf(text, c);
      [text[..i]] + Split(text[i + 1..], c)
  }

  /** `text.replace(a + b, c)` for two different characters a and b: left to right, without overlap. */
  function Replace(text: string, a: char, b: char, c: char): string {
    if text == "" then ""
    else if |text| >= 2 && text[0] == a && text[1] == b then [c] + Replace(text[2..], a, b, c)
    else [text[0]] + Replace(text[1..], a, b, c)
  }

  /** Every `~` is followed by 0 or 1. */
  predicate WellEscaped(part: string) {
    forall i | 0 <= i < |part| && part[i] == '~' :: i + 1 < |part| && (part[i + 1] == '0' || part[i + 1] == '1')
  }

  function Unescape(part: string): string {
    Replace(Replace(part, '~', '1', '/'), '~', '0', '~')
  }

  // ---------------------------------------------------------------- evaluation

  function Child(value: Json, part: string): (r: Option<Json>) {
    if !WellEscaped(part) then None
    else
      var key := Unescape(part);
      match value
      case Arr(items) =>
        if !IsNumeral(key) then None
        else
          NumeralIsDecimal(key);
          if Value(key) < |items| then Some(items[Value(key)]) else None
      case Obj(fields) => if key in fields then Some(fields[key]) else None
      case _ => None
  }

  function Walk(value: Json, parts: seq<string>): (r: Option<Json>) {
    if parts == [] then Some(value)
    else
      var child :- Child(value, parts[0]);
      Walk(child, parts[1..])
  }

  function Evaluate(value: Json, path: string): (r: Option<Json>) {
    if path == "" || path[0] != '/' then None else Walk(value, Split(path[1..], '/'))
  }

  method Pointer(document: Json, path: string) returns (r: Option<Json>)
    ensures r == Evaluate(document, path)
  {
    if path == "" || path[0] != '/' {
      return None;
    }
    var parts, value := Split(path[1..], '/'), document;
    for i := 0 to |parts|
      invariant Walk(document, parts) == Walk(value, parts[i..])
    {
      var child := Child(value, parts[i]);
      assert parts[i..][1..] == parts[i + 1..];
      if child.None? {
        return None;
      }
      value := child.value;
    }
    r := Some(value);
  }

  // ---------------------------------------------------------------- the reference reading

  datatype Step = Key(key: string) | Index(index: nat)

  /** The node a path of keys and indices leads to. */
  function NodeAt(value: Json, path: seq<Step>): (r: Option<Json>) {
    if path == [] then Some(value)
    else
      match (path[0], value)
      case (Key(key), Obj(fields)) => if key in fields then NodeAt(fields[key], path[1..]) else None
      case (Index(index), Arr(items)) => if index < |items| then NodeAt(items[index], path[1..]) else None
      case _ => None
  }

  function EscapeChar(c: char): string {
    if c == '~' then "~0" else if c == '/' then "~1" else [c]
  }

  function Escape(key: string): string {
    if key == "" then "" else EscapeChar(key[0]) + Escape(key[1..])
  }

  /** The single-pass decoding that section 4 of RFC 6901 asks for. */
  function Decode(part: string): string {
    if part == "" then ""
    else if |part| >= 2 && part[0] == '~' && part[1] == '0' then "~" + Decode(part[2..])
    else if |part| >= 2 && part[0] == '~' && part[1] == '1' then "/" + Decode(part[2..])
    else [part[0]] + Decode(part[1..])
  }

  function Token(step: Step): string {
    match step
    case Key(key) => Escape(key)
    case Index(index) => Decimal(index)
  }

  function PathText(path: seq<Step>): string {
    if path == [] then "" else "/" + Token(path[0]) + PathText(path[1..])
  }

  // ---------------------------------------------------------------- escapes

  lemma ReplaceHead(part: string, a: char, b: char, c: char)
    requires part != ""
    ensures var r := Replace(part, a, b, c);
            r != "" && (r[0] == part[0] || r[0] == c)
  {
  }

  /** Undoing `~1` first and `~0` second is the single-pass decoding, on every token. */
  lemma {:induction false} TwoReplacementsDecode(part: string)
    ensures Unescape(part) == Decode(part)
    decreases |part|
  {
    if part == "" {
    } else if |part| >= 2 && part[0] == '~' && part[1] == '1' {
      TwoReplacementsDecode(part[2..]);
      var rest := Replace(part[2..], '~', '1', '/');
      assert Replace(part, '~', '1', '/') == ['/'] + rest;
      assert (['/'] + rest)[1..] == rest;
    } else if |part| >= 2 && part[0] == '~' && part[1] == '0' {
      TwoReplacementsDecode(part[2..]);
      var rest, tail := Replace(part[2..], '~', '1', '/'), part[1..];
      assert tail[0] == '0' && tail[1..] == part[2..];
      assert Replace(tail, '~', '1', '/') == ['0'] + rest;
      assert Replace(part, '~', '1', '/') == ['~'] + (['0'] + rest);
      assert (['~'] + (['0'] + rest))[2..] == rest;
    } else {
      TwoReplacementsDecode(part[1..]);
      var rest := Replace(part[1..], '~', '1', '/');
      assert Replace(part, '~', '1', '/') == [part[0]] + rest;
      assert ([part[0]] + rest)[1..] == rest;
      if |part| >= 2 {
        ReplaceHead(part[1..], '~', '1', '/');
      }
    }
  }

  /** The order of the two replacements matters: the other one decodes `~01` to a slash. */
  lemma OtherOrderIsWrong()
    ensures Decode("~01") == "~1" && Unescape("~01") == "~1"
    ensures Replace(Replace("~01", '~', '0', '~'), '~', '1', '/') == "/"
  {
  }

  lemma DecodeUnfold(part: string)
    ensures Decode(part) ==
      if part == "" then ""
      else if |part| >= 2 && part[0] == '~' && part[1] == '0' then "~" + Decode(part[2..])
      else if |part| >= 2 && part[0] == '~' && part[1] == '1' then "/" + Decode(part[2..])
      else [part[0]] + Decode(part[1..])
  {
  }

  lemma {:induction false} DecodeConcat(a: string, b: string)
    requires WellEscaped(a)
    ensures Decode(a + b) == Decode(a) + Decode(b)
    decreases |a|
  {
    hide WellEscaped, Decode;
    var ab := a + b;
    DecodeUnfold(a);
    DecodeUnfold(ab);
    if a == "" {
      assert ab == b;
    } else if a[0] == '~' {
      WellEscapedHead(a);
      WellEscapedTail(a, 2);
      DecodeConcat(a[2..], b);
      assert ab[0] == a[0] && ab[1] == a[1] && ab[2..] == a[2..] + b;
    } else {
      WellEscapedTail(a, 1);
      DecodeConcat(a[1..], b);
      assert ab[0] == a[0] && ab[1..] == a[1..] + b;
    }
  }

  lemma WellEscapedHead(part: string)
    requires WellEscaped(part) && part != "" && part[0] == '~'
    ensures |part| > 1 && (part[1] == '0' || part[1] == '1')
  {
  }

  lemma WellEscapedTail(part: string, n: nat)
    requires WellEscaped(part) && n <= |part| && (n > 0 ==> part[n - 1] != '~')
    ensures WellEscaped(part[n..])
  {
  }

  /** Escaping is undone by decoding, and leaves no slash and no stray escape behind. */
  lemma {:induction false} EscapeRoundTrip(key: string)
    ensures Decode(Escape(key)) == key && WellEscaped(Escape(key)) && '/' !in Escape(key)
  {
    if key != "" {
      var head, tail := EscapeChar(key[0]), Escape(key[1..]);
      EscapeRoundTrip(key[1..]);
      assert WellEscaped(head) && '/' !in head;
      DecodeConcat(head, tail);
      assert Decode(head) == [key[0]] by {
        assert head[|head|..] == "";
      }
      forall i | 0 <= i < |head + tail| && (head + tail)[i] == '~'
        ensures i + 1 < |head + tail| && ((head + tail)[i + 1] == '0' || (head + tail)[i + 1] == '1')
      {
        if i >= |head| {
          assert tail[i - |head|] == '~';
        }
      }
    }
  }

  /** And a well-escaped token without a slash is the escape of what it decodes to. */
  lemma {:induction false} DecodeRoundTrip(part: string)
    requires WellEscaped(part) && '/' !in part
    ensures Escape(Decode(part)) == part
    decreases |part|
  {
    if part != "" {
      if part[0] == '~' {
        WellEscapedTail(part, 2);
        DecodeRoundTrip(part[2..]);
        var c := if part[1] == '0' then '~' else '/';
        assert Decode(part) == [c] + Decode(part[2..]);
        assert ([c] + Decode(part[2..]))[1..] == Decode(part[2..]);
        assert part == part[..2] + part[2..] && part[..2] == EscapeChar(c);
      } else {
        WellEscapedTail(part, 1);
        DecodeRoundTrip(part[1..]);
        assert Decode(part) == [part[0]] + Decode(part[1..]);
        assert ([part[0]] + Decode(part[1..]))[1..] == Decode(part[1..]);
        assert part == [part[0]] + part[1..];
      }
    }
  }

  lemma NumeralsNeedNoEscape(text: string)
    requires forall c | c in text :: IsDigit(c)
    ensures Escape(text) == text && Decode(text) == text && WellEscaped(text) && '/' !in text
  {
    PlainEscape(text);
    EscapeRoundTrip(text);
  }

  lemma {:induction false} PlainEscape(text: string)
    requires forall c | c in text :: IsDigit(c)
    ensures Escape(text) == text
  {
    if text != "" {
      assert text[0] in text;
      PlainEscape(text[1..]);
      assert text == [text[0]] + text[1..];
    }
  }

  // ---------------------------------------------------------------- the theorem

  lemma ChildOfToken(value: Json, step: Step)
    ensures '/' !in Token(step)
    ensures (step.Key? && value.Obj?) || (step.Index? && value.Arr?) ==>
              Child(value, Token(step)) == NodeAt(value, [step])
  {
    match step
    case Key(key) =>
      EscapeRoundTrip(key);
      TwoReplacementsDecode(Token(step));
    case Index(index) =>
      DecimalIsNumeral(index);
      NumeralsNeedNoEscape(Token(step));
      TwoReplacementsDecode(Token(step));
  }

  /** Every token that leads to a child is the token of exactly the step that leads there. */
  lemma StepOfChild(value: Json, part: string) returns (step: Step)
    requires Child(value, part).Some? && '/' !in part
    ensures Token(step) == part && NodeAt(value, [step]) == Child(value, part)
  {
    TwoReplacementsDecode(part);
    DecodeRoundTrip(part);
    var key := Unescape(part);
    if value.Arr? {
      NumeralIsDecimal(key);
      DecimalIsNumeral(Value(key));
      NumeralsNeedNoEscape(key);
      step := Index(Value(key));
    } else {
      step := Key(key);
    }
  }

  function Tokens(path: seq<Step>): seq<string> {
    if path == [] then [] else [Token(path[0])] + Tokens(path[1..])
  }

  lemma SplitHead(head: string, rest: string)
    requires '/' !in head
    ensures Split(head + "/" + rest, '/') == [head] + Split(rest, '/')
  {
    var text := head + "/" + rest;
    assert text[|head|] == '/';
    var i := IndexOf(text, '/');
    forall k | 0 <= k < |head|
      ensures text[k] != '/'
    {
      assert text[k] == head[k];
    }
    forall k | 0 <= k < i
      ensures text[k] != '/'
    {
      assert text[k] == text[..i][k];
    }
    assert text[..i] == head && text[i + 1..] == rest;
  }

  lemma SplitNothing(text: string)
    ensures '/' !in text ==> Split(text, '/') == [text]
  {
  }

  lemma {:induction false} SplitOfPath(path: seq<Step>)
    requires path != []
    ensures PathText(path) != "" && PathText(path)[0] == '/'
    ensures Split(PathText(path)[1..], '/') == Tokens(path)
  {
    hide Token, Split;
    var token, rest := Token(path[0]), path[1..];
    SplitNothing(token);
    ChildOfToken(Null, path[0]);
    if rest == [] {
      assert PathText(path)[1..] == token;
    } else {
      SplitOfPath(rest);
      var text := PathText(rest)[1..];
      assert PathText(rest) == "/" + text;
      assert PathText(path)[1..] == token + "/" + text;
      SplitHead(token, text);
    }
  }

  lemma {:induction false} WalkTokens(value: Json, path: seq<Step>)
    requires NodeAt(value, path).Some?
    ensures Walk(value, Tokens(path)) == NodeAt(value, path)
  {
    if path != [] {
      ChildOfToken(value, path[0]);
      var child := NodeAt(value, [path[0]]).value;
      assert [path[0]][1..] == [];
      assert NodeAt(value, path) == NodeAt(child, path[1..]);
      WalkTokens(child, path[1..]);
      assert Tokens(path)[1..] == Tokens(path[1..]);
    }
  }

  /** For every document and every nonempty path to a node, the escaped pointer evaluates to that node. */
  lemma PointerFindsEveryNode(document: Json, path: seq<Step>)
    requires path != [] && NodeAt(document, path).Some?
    ensures Evaluate(document, PathText(path)) == NodeAt(document, path)
  {
    SplitOfPath(path);
    WalkTokens(document, path);
  }

  lemma {:induction false} SplitParts(text: string)
    ensures forall part | part in Split(text, '/') :: '/' !in part
    decreases |text|
  {
    if '/' in text {
      SplitParts(text[IndexOf(text, '/') + 1..]);
    }
  }

  lemma {:induction false} WalkIsPath(value: Json, parts: seq<string>) returns (path: seq<Step>)
    requires (forall part | part in parts :: '/' !in part) && Walk(value, parts).Some?
    ensures Tokens(path) == parts && NodeAt(value, path) == Walk(value, parts)
  {
    if parts == [] {
      path := [];
    } else {
      assert parts[0] in parts;
      var step := StepOfChild(value, parts[0]);
      var child := Child(value, parts[0]).value;
      var rest := WalkIsPath(child, parts[1..]);
      path := [step] + rest;
      assert [step][1..] == [] && path[1..] == rest;
      assert NodeAt(value, [step]) == Some(child);
      assert NodeAt(value, path) == NodeAt(child, rest);
    }
  }

  lemma SplitUnfold(text: string)
    ensures Split(text, '/') ==
      if '/' !in text then [text]
      else [text[..IndexOf(text, '/')]] + Split(text[IndexOf(text, '/') + 1..], '/')
  {
  }

  lemma {:induction false} TextOfTokens(path: seq<Step>, text: string)
    requires Tokens(path) == Split(text, '/')
    ensures path != [] && PathText(path) == "/" + text
    decreases |text|
  {
    hide Split, IndexOf, Token, Tokens, PathText;
    SplitUnfold(text);
    PathUnfold(path);
    assert path != [];
    if '/' in text {
      var i := IndexOf(text, '/');
      TextOfTokens(path[1..], text[i + 1..]);
      assert text == text[..i] + "/" + text[i + 1..];
    } else {
      PathUnfold(path[1..]);
    }
  }

  lemma PathUnfold(path: seq<Step>)
    ensures PathText(path) == if path == [] then "" else "/" + Token(path[0]) + PathText(path[1..])
    ensures if path == [] then Tokens(path) == []
            else Tokens(path) != [] && Tokens(path)[0] == Token(path[0]) && Tokens(path)[1..] == Tokens(path[1..])
  {
  }

  /** And it finds nothing else: a pointer evaluates to a node exactly when it spells a path to that node. */
  lemma PointerIsExact(document: Json, text: string, node: Json)
    ensures Evaluate(document, text) == Some(node)
       <==> exists path :: path != [] && PathText(path) == text && NodeAt(document, path) == Some(node)
  {
    if Evaluate(document, text) == Some(node) {
      SplitParts(text[1..]);
      var path := WalkIsPath(document, Split(text[1..], '/'));
      TextOfTokens(path, text[1..]);
      assert text == "/" + text[1..];
      assert path != [] && PathText(path) == text && NodeAt(document, path) == Some(node);
    }
    forall path | path != [] && PathText(path) == text && NodeAt(document, path) == Some(node)
      ensures Evaluate(document, text) == Some(node)
    {
      PointerFindsEveryNode(document, path);
    }
  }
}

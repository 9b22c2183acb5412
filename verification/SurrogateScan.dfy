/**
 `purchaseUnicodeValid`: one pass over a JSON text that refuses lone surrogate escapes, before a decoder could
 replace them silently (sections 7 and 8.2 of RFC 8259).
 */
module SurrogateScan {

  // ---------------------------------------------------------------- JSON texts, as far as strings are concerned

  datatype Element = Plain(c: char) | Escape(c: char) | Unicode(digits: string)

  datatype Piece = Bare(c: char) | Quoted(elements: seq<Element>)

  predicate IsHexDigit(c: char) {
    '0' <= c <= '9' || 'a' <= c <= 'f' || 'A' <= c <= 'F'
  }

  function HexDigit(c: char): (n: nat)
    requires IsHexDigit(c)
    ensures n < 16
  {
    if c <= '9' then c as int - '0' as int
    else if 'a' <= c then c as int - 'a' as int + 10
    else c as int - 'A' as int + 10
  }

  predicate IsUnit(digits: string) {
    |digits| == 4 && forall c | c in digits :: IsHexDigit(c)
  }

  function Unit(digits: string): nat
    requires IsUnit(digits)
  {
    assert forall i | 0 <= i < 4 :: digits[i] in digits;
    ((HexDigit(digits[0]) * 16 + HexDigit(digits[1])) * 16 + HexDigit(digits[2])) * 16 + HexDigit(digits[3])
  }

  /** A digit stands for its place among the sixteen, in small letters or capitals. */
  lemma DigitsAreExact(c: char, n: nat)
    requires n < 16
    ensures IsHexDigit(c) && HexDigit(c) == n <==> c == "0123456789abcdef"[n] || c == "0123456789ABCDEF"[n]
  {
  }

  lemma UnitsAreExact(digits: string)
    requires IsUnit(digits)
    ensures (forall i | 0 <= i < 4 :: IsHexDigit(digits[i]))
    ensures Unit(digits) ==
      4096 * HexDigit(digits[0]) + 256 * HexDigit(digits[1]) + 16 * HexDigit(digits[2]) + HexDigit(digits[3])
  {
  }

  predicate ValidElement(e: Element) {
    match e
    case Plain(c) => c != '"' && c != '\\'
    case Escape(c) => c in "\"\\/bfnrt"
    case Unicode(digits) => IsUnit(digits)
  }

  /** Outside strings a JSON text has neither quotes nor backslashes. */
  predicate ValidPiece(p: Piece) {
    match p
    case Bare(c) => c != '"' && c != '\\'
    case Quoted(elements) => forall e | e in elements :: ValidElement(e)
  }

  function ElementText(e: Element): string {
    match e
    case Plain(c) => [c]
    case Escape(c) => ['\\', c]
    case Unicode(digits) => "\\u" + digits
  }

  function ElementsText(elements: seq<Element>): string {
    if elements == [] then "" else ElementText(elements[0]) + ElementsText(elements[1..])
  }

  function Text(pieces: seq<Piece>): string {
    if pieces == [] then ""
    else
      (match pieces[0]
       case Bare(c) => [c]
       case Quoted(elements) => "\"" + ElementsText(elements) + "\"") + Text(pieces[1..])
  }

  // ---------------------------------------------------------------- surrogates

  predicate IsHigh(e: Element) {
    e.Unicode? && IsUnit(e.digits) && 0xd800 <= Unit(e.digits) <= 0xdbff
  }

  predicate IsLow(e: Element) {
    e.Unicode? && IsUnit(e.digits) && 0xdc00 <= Unit(e.digits) <= 0xdfff
  }

  /** Every high surrogate is directly followed by a low one, and there is no other low one. */
  ghost predicate Paired(elements: seq<Element>) {
    && (forall i | 0 <= i < |elements| && IsHigh(elements[i]) :: i + 1 < |elements| && IsLow(elements[i + 1]))
    && (forall i | 0 <= i < |elements| && IsLow(elements[i]) :: 0 < i && IsHigh(elements[i - 1]))
  }

  ghost predicate AllPaired(pieces: seq<Piece>) {
    forall p | p in pieces && p.Quoted? :: Paired(p.elements)
  }

  lemma SkipOne(elements: seq<Element>)
    requires elements != [] && !IsHigh(elements[0]) && !IsLow(elements[0])
    ensures Paired(elements) <==> Paired(elements[1..])
  {
    hide IsHigh, IsLow;
  }

  lemma HighIsNotLow(e: Element)
    ensures !(IsHigh(e) && IsLow(e))
  {
  }

  lemma SkipPair(elements: seq<Element>)
    requires |elements| >= 2 && IsHigh(elements[0]) && IsLow(elements[1])
    ensures Paired(elements) <==> Paired(elements[2..])
  {
    hide IsHigh, IsLow;
    HighIsNotLow(elements[0]);
    HighIsNotLow(elements[1]);
  }

  // ---------------------------------------------------------------- the scan

  /** What is still to be read: the rest of the string the scan is in, if it is in one, and the other pieces. */
  function Ahead(inString: bool, elements: seq<Element>, pieces: seq<Piece>): string {
    (if inString then ElementsText(elements) + "\"" else "") + Text(pieces)
  }

  ghost predicate Fine(elements: seq<Element>, pieces: seq<Piece>) {
    (forall e | e in elements :: ValidElement(e)) && forall p | p in pieces :: ValidPiece(p)
  }

  /** What the rest of the text has to be like for the whole to be accepted. */
  ghost predicate Acceptable(inString: bool, elements: seq<Element>, pieces: seq<Piece>) {
    (inString ==> Paired(elements)) && AllPaired(pieces)
  }

  lemma AheadOfElement(elements: seq<Element>, pieces: seq<Piece>)
    requires elements != []
    ensures Ahead(true, elements, pieces) == ElementText(elements[0]) + Ahead(true, elements[1..], pieces)
    ensures Ahead(true, elements[1..], pieces) != ""
  {
  }

  lemma AllPairedCons(pieces: seq<Piece>)
    requires pieces != []
    ensures AllPaired(pieces) <==> (pieces[0].Quoted? ==> Paired(pieces[0].elements)) && AllPaired(pieces[1..])
  {
    hide Paired;
  }

  /** A quote opens the next piece or closes the string. */
  lemma MeetQuote(inString: bool, elements: seq<Element>, pieces: seq<Piece>)
      returns (elements': seq<Element>, pieces': seq<Piece>)
    requires Fine(elements, pieces) && (!inString ==> elements == [])
    requires Ahead(inString, elements, pieces) != "" && Ahead(inString, elements, pieces)[0] == '"'
    ensures Fine(elements', pieces') && (inString ==> elements' == [])
    ensures Ahead(inString, elements, pieces)[1..] == Ahead(!inString, elements', pieces')
    ensures Acceptable(inString, elements, pieces) <==> Acceptable(!inString, elements', pieces')
  {
    hide Paired, AllPaired;
    if inString {
      QuoteEndsElements(elements, pieces);
      elements', pieces' := [], pieces;
      NothingIsPaired();
    } else {
      assert pieces[0] in pieces && ValidPiece(pieces[0]);
      AllPairedCons(pieces);
      elements', pieces' := pieces[0].elements, pieces[1..];
    }
  }

  lemma QuoteEndsElements(elements: seq<Element>, pieces: seq<Piece>)
    requires Fine(elements, pieces) && Ahead(true, elements, pieces)[0] == '"'
    ensures elements == []
  {
    if elements != [] {
      AheadOfElement(elements, pieces);
    }
    assert elements != [] ==> ValidElement(elements[0]);
  }

  lemma NothingIsPaired()
    ensures Paired([])
  {
  }

  /** Any other character, unless it starts an escape, is passed over. */
  lemma MeetOther(inString: bool, elements: seq<Element>, pieces: seq<Piece>)
      returns (elements': seq<Element>, pieces': seq<Piece>)
    requires Fine(elements, pieces) && (!inString ==> elements == [])
    requires Ahead(inString, elements, pieces) != "" && Ahead(inString, elements, pieces)[0] != '"'
    requires inString ==> Ahead(inString, elements, pieces)[0] != '\\'
    ensures Fine(elements', pieces') && (!inString ==> elements' == [])
    ensures Ahead(inString, elements, pieces)[1..] == Ahead(inString, elements', pieces')
    ensures Acceptable(inString, elements, pieces) <==> Acceptable(inString, elements', pieces')
  {
    hide Paired;
    if inString {
      assert elements != [];
      AheadOfElement(elements, pieces);
      assert elements[0] in elements && ValidElement(elements[0]);
      SkipOne(elements);
      elements', pieces' := elements[1..], pieces;
    } else {
      assert pieces[0] in pieces && ValidPiece(pieces[0]);
      AllPairedCons(pieces);
      elements', pieces' := [], pieces[1..];
    }
  }

  /** A backslash in a string starts an escape of two characters, or one of six with four hexadecimal digits. */
  lemma MeetEscape(elements: seq<Element>, pieces: seq<Piece>)
    requires Fine(elements, pieces)
    requires Ahead(true, elements, pieces)[0] == '\\'
    ensures elements != [] && Fine(elements[1..], pieces) && Ahead(true, elements[1..], pieces) != ""
    ensures |Ahead(true, elements, pieces)| > 1
    ensures var e, c := elements[0], Ahead(true, elements, pieces)[1];
      if c == 'u' then
        && e.Unicode? && IsUnit(e.digits) && |Ahead(true, elements, pieces)| > 6
        && Ahead(true, elements, pieces)[2..6] == e.digits
        && Ahead(true, elements, pieces)[6..] == Ahead(true, elements[1..], pieces)
      else
        && !e.Unicode?
        && Ahead(true, elements, pieces)[2..] == Ahead(true, elements[1..], pieces)
  {
    assert elements != [];
    AheadOfElement(elements, pieces);
    assert elements[0] in elements && ValidElement(elements[0]);
  }

  /** After a high surrogate that is well paired, a low one follows, and then at least the closing quote. */
  lemma LowMustFollow(elements: seq<Element>, pieces: seq<Piece>)
    requires Fine(elements, pieces) && elements != [] && IsHigh(elements[0]) && Paired(elements)
    ensures |elements| >= 2 && IsLow(elements[1])
    ensures var rest := Ahead(true, elements[1..], pieces);
      |rest| > 6 && rest[0] == '\\' && rest[1] == 'u'
  {
  }

  /**
   For every JSON text the scan stays within the text, and accepts exactly when all surrogate escapes are paired.
   `wellFormed` is the answer of the two library checks.
   */
  method PurchaseUnicodeValid(b: string, wellFormed: bool, ghost document: seq<Piece>) returns (ok: bool)
    requires wellFormed ==> b == Text(document) && forall p | p in document :: ValidPiece(p)
    ensures ok <==> wellFormed && AllPaired(document)
  {
    hide Paired, AllPaired, Ahead, ValidElement, ValidPiece, Acceptable, Fine, IsUnit, Unit;
    if !wellFormed {
      return false;
    }
    var inString, i := false, 0;
    ghost var elements: seq<Element>, pieces := [], document;
    NothingAhead(document);
    assert b[0..] == b;
    while i < |b|
      invariant i <= |b| && b[i..] == Ahead(inString, elements, pieces) && Fine(elements, pieces)
      invariant AllPaired(document) <==> Acceptable(inString, elements, pieces)
      invariant !inString ==> elements == []
    {
      RestOfText(b, i);
      if b[i] == '"' {
        elements, pieces := MeetQuote(inString, elements, pieces);
        inString := !inString;
        i := i + 1;
        continue;
      }
      if !inString || b[i] != '\\' {
        elements, pieces := MeetOther(inString, elements, pieces);
        i := i + 1;
        continue;
      }
      MeetEscape(elements, pieces);
      i := i + 1;
      if b[i] != 'u' {
        PassOne(elements, pieces);
        elements := elements[1..];
        i := i + 1;
        continue;
      }
      ok, i, elements := PassUnit(b, i, elements, pieces);
      if !ok {
        return;
      }
      i := i + 1;
    }
    NothingLeft(inString, elements, pieces);
    ok := true;
  }

  lemma RestOfText(b: string, i: nat)
    requires i < |b|
    ensures b[i..] != "" && b[i..][0] == b[i] && b[i..][1..] == b[i + 1..]
    ensures i + 1 < |b| ==> b[i..][1] == b[i + 1] && b[i..][2..] == b[i + 2..]
  {
  }

  /** From the `u` of an escape to the last digit of it, or of the low surrogate that has to follow it. */
  method PassUnit(b: string, start: nat, ghost elements: seq<Element>, ghost pieces: seq<Piece>)
      returns (ok: bool, i: nat, ghost rest: seq<Element>)
    requires 0 < start < |b| && b[start - 1] == '\\' && b[start] == 'u' && Fine(elements, pieces)
    requires b[start - 1..] == Ahead(true, elements, pieces)
    ensures !ok ==> !Acceptable(true, elements, pieces)
    ensures ok ==> (Acceptable(true, elements, pieces) <==> Acceptable(true, rest, pieces))
    ensures ok ==> start <= i < |b| && b[i + 1..] == Ahead(true, rest, pieces) && Fine(rest, pieces)
  {
    hide Ahead, Acceptable, Fine, IsUnit, Unit;
    MeetEscape(elements, pieces);
    i, rest := start, elements[1..];
    var digits := b[i + 1..i + 5];
    assert b[start - 1..][2..6] == digits == elements[0].digits;
    if !IsUnit(digits) {
      return false, i, rest;
    }
    var n := Unit(digits);
    i := i + 4;
    UnitAhead(elements, pieces);
    if 0xdc00 <= n <= 0xdfff {
      return false, i, rest;
    }
    assert b[i + 1..] == b[start - 1..][6..];
    if 0xd800 <= n <= 0xdbff {
      if i + 6 >= |b| || b[i + 1] != '\\' || b[i + 2] != 'u' {
        return false, i, rest;
      }
      MeetEscape(rest, pieces);
      var second := b[i + 3..i + 7];
      assert b[i + 1..][2..6] == second == rest[0].digits;
      if !IsUnit(second) || Unit(second) < 0xdc00 || Unit(second) > 0xdfff {
        return false, i, rest;
      }
      i, rest := i + 6, elements[2..];
      assert b[i + 1..] == b[i - 5..][6..];
    }
    ok := true;
  }

  lemma PassOne(elements: seq<Element>, pieces: seq<Piece>)
    requires elements != [] && !elements[0].Unicode?
    ensures Acceptable(true, elements, pieces) <==> Acceptable(true, elements[1..], pieces)
  {
    hide Paired, AllPaired;
    SkipOne(elements);
  }

  /** What the first unit of a string decides. */
  lemma UnitAhead(elements: seq<Element>, pieces: seq<Piece>)
    requires Fine(elements, pieces) && elements != [] && elements[0].Unicode? && IsUnit(elements[0].digits)
    ensures var n, rest := Unit(elements[0].digits), Ahead(true, elements[1..], pieces);
      if 0xdc00 <= n <= 0xdfff then !Acceptable(true, elements, pieces)
      else if 0xd800 <= n <= 0xdbff then
        && (Acceptable(true, elements, pieces) ==>
             && |rest| > 6 && rest[0] == '\\' && rest[1] == 'u'
             && |elements| > 1 && elements[1].Unicode? && IsUnit(elements[1].digits)
             && 0xdc00 <= Unit(elements[1].digits) <= 0xdfff)
        && (|elements| > 1 && elements[1].Unicode? && IsUnit(elements[1].digits)
            && 0xdc00 <= Unit(elements[1].digits) <= 0xdfff ==>
             (Acceptable(true, elements, pieces) <==> Acceptable(true, elements[2..], pieces)))
      else Acceptable(true, elements, pieces) <==> Acceptable(true, elements[1..], pieces)
    ensures elements[1..] != [] ==> elements[1..][0] == elements[1] && elements[1..][1..] == elements[2..]
  {
    hide Paired, AllPaired, Ahead, Unit, IsUnit, Fine;
    if IsLow(elements[0]) {
      LowMustNotStart(elements);
    } else if IsHigh(elements[0]) {
      if Paired(elements) {
        LowMustFollow(elements, pieces);
      }
      if |elements| > 1 && IsLow(elements[1]) {
        SkipPair(elements);
      }
    } else {
      SkipOne(elements);
    }
  }

  lemma LowMustNotStart(elements: seq<Element>)
    requires elements != [] && IsLow(elements[0])
    ensures !Paired(elements)
  {
  }

  lemma NothingAhead(document: seq<Piece>)
    requires forall p | p in document :: ValidPiece(p)
    ensures Fine([], document) && Ahead(false, [], document) == Text(document)
    ensures Acceptable(false, [], document) <==> AllPaired(document)
  {
  }

  lemma NothingLeft(inString: bool, elements: seq<Element>, pieces: seq<Piece>)
    requires Ahead(inString, elements, pieces) == ""
    ensures Acceptable(inString, elements, pieces)
  {
  }
}

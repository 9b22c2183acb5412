/** Runs of characters, and the slug: a loop that agrees with a regular expression. */
module Slugs {
  import opened Texts

  // ---------------------------------------------------------------- runs of characters

  function Lead(p: char -> bool, s: string): (n: nat)
    ensures n <= |s| && (forall i | 0 <= i < n :: p(s[i])) && (n < |s| ==> !p(s[n]))
  {
    if s == "" || !p(s[0]) then 0 else 1 + Lead(p, s[1..])
  }

  /** The maximal runs of characters that satisfy `p`, in order. */
  function Runs(p: char -> bool, s: string): (runs: seq<string>)
    decreases |s|
  {
    var n := Lead(p, s);
    if s == "" then [] else if n == 0 then Runs(p, s[1..]) else [s[..n]] + Runs(p, s[n..])
  }

  function Join(parts: seq<string>, sep: char): string {
    if parts == [] then ""
    else if |parts| == 1 then parts[0]
    else parts[0] + [sep] + Join(parts[1..], sep)
  }

  ghost predicate IsRun(p: char -> bool, w: string) {
    w != "" && forall c | c in w :: p(c)
  }

  lemma {:induction false} RunsAreRuns(p: char -> bool, s: string)
    ensures forall w | w in Runs(p, s) :: IsRun(p, w)
    decreases |s|
  {
    var n := Lead(p, s);
    if s != "" {
      RunsAreRuns(p, s[if n == 0 then 1 else n..]);
    }
  }

  lemma RunIsOne(p: char -> bool, w: string)
    requires IsRun(p, w)
    ensures Runs(p, w) == [w]
  {
    var n := Lead(p, w);
    assert forall i | 0 <= i < |w| :: w[i] in w;
    assert w[..n] == w && w[n..] == "";
  }

  lemma RunsUnfold(p: char -> bool, s: string)
    ensures var n := Lead(p, s);
      Runs(p, s) == if s == "" then [] else if n == 0 then Runs(p, s[1..]) else [s[..n]] + Runs(p, s[n..])
  {
  }

  lemma CutBefore(a: string, c: char, b: string, n: nat)
    requires n <= |a|
    ensures (a + [c] + b)[..n] == a[..n] && (a + [c] + b)[n..] == a[n..] + [c] + b
  {
  }

  /** A character outside the runs splits them. */
  lemma {:induction false} RunsSplit(p: char -> bool, a: string, c: char, b: string)
    requires !p(c)
    ensures Runs(p, a + [c] + b) == Runs(p, a) + Runs(p, b)
    decreases |a|
  {
    hide Runs, Lead;
    var n := Lead(p, a);
    RunsUnfold(p, a);
    RunsUnfold(p, a + [c] + b);
    LeadStops(p, a, c, b);
    if a == "" {
      assert ("" + [c] + b)[1..] == b;
    } else {
      var k := if n == 0 then 1 else n;
      CutBefore(a, c, b, k);
      RunsSplit(p, a[k..], c, b);
    }
  }

  lemma LeadStops(p: char -> bool, a: string, c: char, b: string)
    requires !p(c)
    ensures Lead(p, a + [c] + b) == Lead(p, a)
  {
    hide Lead;
    var s := a + [c] + b;
    assert s[|a|] == c;
    assert forall i | 0 <= i < |a| :: s[i] == a[i];
  }

  /** Only which characters belong to runs matters: the others may be exchanged freely. */
  lemma {:induction false} RunsIgnoreTheRest(p: char -> bool, a: string, b: string)
    requires |a| == |b| && forall i | 0 <= i < |a| :: a[i] == b[i] || (!p(a[i]) && !p(b[i]))
    ensures Runs(p, a) == Runs(p, b)
    decreases |a|
  {
    var n := Lead(p, a);
    assert Lead(p, b) == n;
    if a != "" {
      if n == 0 {
        RunsIgnoreTheRest(p, a[1..], b[1..]);
      } else {
        assert a[..n] == b[..n];
        RunsIgnoreTheRest(p, a[n..], b[n..]);
      }
    }
  }

  /** Splitting a joined list of runs gives the list back. */
  lemma {:induction false} RunsOfJoin(p: char -> bool, parts: seq<string>, sep: char)
    requires !p(sep) && forall w | w in parts :: IsRun(p, w)
    ensures Runs(p, Join(parts, sep)) == parts
  {
    if parts == [] {
    } else if |parts| == 1 {
      RunIsOne(p, parts[0]);
      assert parts == [parts[0]];
    } else {
      RunIsOne(p, parts[0]);
      RunsSplit(p, parts[0], sep, Join(parts[1..], sep));
      RunsOfJoin(p, parts[1..], sep);
    }
  }

  /** Joining coarser runs with a separator leaves the finer runs as they are. */
  lemma {:induction false} RunsOfCoarser(p: char -> bool, q: char -> bool, s: string, sep: char)
    requires !p(sep) && forall c | p(c) :: q(c)
    ensures Runs(p, Join(Runs(q, s), sep)) == Runs(p, s)
    decreases |s|
  {
    hide Runs, Join;
    RunsUnfold(q, s);
    var n := Lead(q, s);
    if s == "" {
      assert Join([], sep) == "" by { JoinUnfold([], sep); }
    } else if n == 0 {
      RunsUnfold(p, s);
      RunsOfCoarser(p, q, s[1..], sep);
    } else {
      var w, others := s[..n], Runs(q, s[n..]);
      RunsOfCoarser(p, q, s[n..], sep);
      RunsOfCut(p, w, s[n..]);
      assert s == w + s[n..];
      JoinUnfold([w] + others, sep);
      JoinUnfold([], sep);
      assert ([w] + others)[1..] == others;
      RunsUnfold(p, "");
      RunsSplit(p, w, sep, Join(others, sep));
    }
  }

  /** A cut before a character outside the runs splits them. */
  lemma RunsOfCut(p: char -> bool, a: string, b: string)
    requires b == "" || !p(b[0])
    ensures Runs(p, a + b) == Runs(p, a) + Runs(p, b)
  {
    hide Runs;
    RunsUnfold(p, b);
    if b == "" {
      assert a + b == a;
    } else {
      assert a + [b[0]] + b[1..] == a + b;
      RunsSplit(p, a, b[0], b[1..]);
    }
  }

  lemma JoinUnfold(parts: seq<string>, sep: char)
    ensures Join(parts, sep) == if parts == [] then "" else if |parts| == 1 then parts[0]
                                else parts[0] + [sep] + Join(parts[1..], sep)
  {
  }

  /** One more character: it extends the last run, starts a new one, or changes nothing. */
  lemma {:induction false} RunsSnoc(p: char -> bool, s: string, c: char)
    ensures !p(c) ==> Runs(p, s + [c]) == Runs(p, s)
    ensures p(c) && (s == "" || !p(s[|s| - 1])) ==> Runs(p, s + [c]) == Runs(p, s) + [[c]]
    ensures p(c) && s != "" && p(s[|s| - 1]) ==>
      && Runs(p, s) != []
      && Runs(p, s + [c]) == Runs(p, s)[..|Runs(p, s)| - 1] + [Runs(p, s)[|Runs(p, s)| - 1] + [c]]
    decreases |s|
  {
    if !p(c) {
      RunsSplit(p, s, c, "");
      assert s + [c] + "" == s + [c];
    } else if s == "" || !p(s[|s| - 1]) {
      RunIsOne(p, [c]);
      if s == "" {
        assert s + [c] == [c];
      } else {
        var front, d := s[..|s| - 1], s[|s| - 1];
        assert s == front + [d];
        RunsSplit(p, front, d, [c]);
        RunsSplit(p, front, d, "");
        assert front + [d] + "" == s;
      }
    } else {
      LastRunGrows(p, s, c);
    }
  }

  lemma {:induction false} LastRunGrows(p: char -> bool, s: string, c: char)
    requires p(c) && s != "" && p(s[|s| - 1])
    ensures Runs(p, s) != []
    ensures Runs(p, s + [c]) == Runs(p, s)[..|Runs(p, s)| - 1] + [Runs(p, s)[|Runs(p, s)| - 1] + [c]]
    decreases |s|
  {
    hide Runs;
    var n := Lead(p, s);
    RunsUnfold(p, s);
    RunsUnfold(p, s + [c]);
    if n == |s| {
      assert IsRun(p, s) && IsRun(p, s + [c]);
      RunIsOne(p, s);
      RunIsOne(p, s + [c]);
      assert Runs(p, s)[..0] == [];
    } else {
      var k := if n == 0 then 1 else n;
      var t := s[k..];
      assert t[|t| - 1] == s[|s| - 1];
      LastRunGrows(p, t, c);
      LeadOfLonger(p, s, c);
      assert (s + [c])[k..] == t + [c];
      if n > 0 {
        assert (s + [c])[..n] == s[..n];
        LastGrowsBehind(s[..n], Runs(p, t), c);
      }
    }
  }

  lemma LeadOfLonger(p: char -> bool, s: string, c: char)
    requires Lead(p, s) < |s|
    ensures Lead(p, s + [c]) == Lead(p, s)
  {
    hide Lead;
    assert forall i | 0 <= i < |s| :: (s + [c])[i] == s[i];
  }

  lemma LastGrowsBehind(w: string, runs: seq<string>, c: char)
    requires runs != []
    ensures var all := [w] + runs;
      all[..|all| - 1] + [all[|all| - 1] + [c]] == [w] + (runs[..|runs| - 1] + [runs[|runs| - 1] + [c]])
  {
  }

  // ---------------------------------------------------------------- trimming and fields

  function TrimLeft(q: char -> bool, s: string): string {
    if s != "" && q(s[0]) then TrimLeft(q, s[1..]) else s
  }

  function TrimRight(q: char -> bool, s: string): string {
    if s != "" && q(s[|s| - 1]) then TrimRight(q, s[..|s| - 1]) else s
  }

  function Trim(q: char -> bool, s: string): string {
    TrimRight(q, TrimLeft(q, s))
  }

  /** Trimming characters outside the runs leaves the runs, and nothing more to trim on that side. */
  lemma {:induction false} TrimLeftKeepsRuns(p: char -> bool, q: char -> bool, s: string) returns (k: nat)
    requires forall c | q(c) :: !p(c)
    ensures k <= |s| && TrimLeft(q, s) == s[k..] && (k < |s| ==> !q(s[k]))
    ensures Runs(p, TrimLeft(q, s)) == Runs(p, s)
  {
    if s != "" && q(s[0]) {
      k := TrimLeftKeepsRuns(p, q, s[1..]);
      k := k + 1;
    } else {
      k := 0;
    }
  }

  lemma {:induction false} TrimRightKeepsRuns(p: char -> bool, q: char -> bool, s: string) returns (k: nat)
    requires forall c | q(c) :: !p(c)
    ensures k <= |s| && TrimRight(q, s) == s[..k] && (0 < k ==> !q(s[k - 1]))
    ensures Runs(p, TrimRight(q, s)) == Runs(p, s)
  {
    hide Runs;
    RunsUnfold(p, "");
    if s != "" && q(s[|s| - 1]) {
      var front := s[..|s| - 1];
      k := TrimRightKeepsRuns(p, q, front);
      RunsSplit(p, front, s[|s| - 1], "");
      assert front + [s[|s| - 1]] + "" == s;
      assert front[..k] == s[..k];
    } else {
      k := |s|;
    }
  }

  lemma TrimKeepsRuns(p: char -> bool, q: char -> bool, s: string)
    requires forall c | q(c) :: !p(c)
    ensures Runs(p, Trim(q, s)) == Runs(p, s)
  {
    var _ := TrimLeftKeepsRuns(p, q, s);
    var _ := TrimRightKeepsRuns(p, q, TrimLeft(q, s));
  }

  predicate IsSpace(c: char) {
    c == ' ' || 9 <= c as int <= 13
  }

  predicate IsInk(c: char) {
    !IsSpace(c)
  }

  predicate IsDash(c: char) {
    c == '-'
  }

  function TrimSpace(s: string): string {
    Trim(IsSpace, s)
  }

  function Fields(s: string): seq<string> {
    Runs(IsInk, s)
  }

  // ---------------------------------------------------------------- the slug

  predicate IsAlnum(c: char) {
    'a' <= c <= 'z' || '0' <= c <= '9'
  }

  lemma WordCharactersAreExact(c: char)
    ensures IsAlnum(c) <==> 0x61 <= c as int <= 0x7a || 0x30 <= c as int <= 0x39
  {
  }

  /** The lower-case words of a text, which are all that a slug keeps of it. */
  function Words(s: string): seq<string> {
    Runs(IsAlnum, Lower(s))
  }

  function Slug(s: string): string {
    Join(Words(s), '-')
  }

  /** `REGEXP_REPLACE(s, '[^a-z0-9]+', '-', 'g')` */
  function ReplaceRuns(s: string): string
    decreases |s|
  {
    if s == "" then ""
    else if IsAlnum(s[0]) then [s[0]] + ReplaceRuns(s[1..])
    else
      var n := Lead(c => !IsAlnum(c), s);
      "-" + ReplaceRuns(s[n..])
  }

  /** `TRIM(BOTH '-' FROM REGEXP_REPLACE(LOWER(s), …))` */
  function RegexSlug(s: string): string {
    Trim(IsDash, ReplaceRuns(Lower(s)))
  }

  /** Alphanumeric runs separated by single dashes, except for a dash that may stand at either end. */
  ghost predicate Tidy(t: string) {
    && (forall i | 0 <= i < |t| :: IsAlnum(t[i]) || t[i] == '-')
    && (forall i, j | 0 <= i < j < |t| && j == i + 1 && t[i] == '-' :: t[j] != '-')
  }

  ghost predicate TidyWithin(t: string) {
    Tidy(t) && (t != "" ==> t[0] != '-' && t[|t| - 1] != '-')
  }

  lemma {:induction false} TidyIsJoined(t: string)
    requires TidyWithin(t)
    ensures t == Join(Runs(IsAlnum, t), '-')
    decreases |t|
  {
    hide Runs, Join, Lead, TidyWithin;
    RunsUnfold(IsAlnum, t);
    RunsUnfold(IsAlnum, "");
    JoinUnfold(Runs(IsAlnum, t), '-');
    JoinUnfold([], '-');
    var n := Lead(IsAlnum, t);
    if n == |t| {
      assert t[..n] == t && t[n..] == "";
    } else {
      TidyStops(t);
      var rest := t[n + 1..];
      TidyIsJoined(rest);
      RunsUnfold(IsAlnum, t[n..]);
      assert t[n..][1..] == rest;
      assert Runs(IsAlnum, t)[1..] == Runs(IsAlnum, rest);
    }
  }

  /** After the first run of a tidy text stands one dash, and behind it another tidy text. */
  lemma TidyStops(t: string)
    requires TidyWithin(t) && Lead(IsAlnum, t) < |t|
    ensures var n := Lead(IsAlnum, t);
      && 0 < n && Lead(IsAlnum, t[n..]) == 0
      && t[n + 1..] != "" && TidyWithin(t[n + 1..]) && t == t[..n] + ['-'] + t[n + 1..]
  {
    hide Lead, Tidy;
    var n := Lead(IsAlnum, t);
    DashInside(t, n);
    SliceIsTidy(t, n + 1, |t|);
    CutAt(t, n);
  }

  lemma CutAt(t: string, n: nat)
    requires n < |t|
    ensures t == t[..n] + [t[n]] + t[n + 1..] && t[n..][0] == t[n] && t[n + 1..|t|] == t[n + 1..]
  {
  }

  lemma DashInside(t: string, n: nat)
    requires TidyWithin(t) && n < |t| && !IsAlnum(t[n])
    ensures 0 < n < |t| - 1 && t[n] == '-' != t[n + 1]
  {
  }

  lemma TrimIsTidy(t: string)
    requires Tidy(t)
    ensures Trim(IsDash, t) == Join(Runs(IsAlnum, t), '-')
  {
    hide Runs, Join, TrimLeft, TrimRight, Tidy;
    var k := TrimLeftKeepsRuns(IsAlnum, IsDash, t);
    var m := TrimRightKeepsRuns(IsAlnum, IsDash, t[k..]);
    SliceIsTidy(t, k, k + m);
    assert t[k..][..m] == t[k..k + m];
    TidyIsJoined(t[k..k + m]);
  }

  lemma SliceIsTidy(t: string, a: nat, b: nat)
    requires Tidy(t) && a <= b <= |t|
    ensures Tidy(t[a..b])
  {
  }

  lemma {:induction false} ReplaceRunsIsTidy(s: string)
    ensures Tidy(ReplaceRuns(s)) && Runs(IsAlnum, ReplaceRuns(s)) == Runs(IsAlnum, s)
    ensures ReplaceRuns(s) != "" ==> s != "" && (ReplaceRuns(s)[0] == '-' <==> !IsAlnum(s[0]))
    decreases |s|
  {
    hide Runs, Tidy;
    if s == "" {
      TidyCons('-', "");
    } else if IsAlnum(s[0]) {
      var r := ReplaceRuns(s[1..]);
      ReplaceRunsIsTidy(s[1..]);
      TidyCons(s[0], r);
      assert s == [s[0]] + s[1..];
      RunsCons(s[0], s[1..], r);
    } else {
      var n := Lead(c => !IsAlnum(c), s);
      var r := ReplaceRuns(s[n..]);
      ReplaceRunsIsTidy(s[n..]);
      TidyCons('-', r);
      SkipGap(s, n);
      RunsUnfold(IsAlnum, "-" + r);
      assert ("-" + r)[1..] == r;
      assert Lead(IsAlnum, "-" + r) == 0;
    }
  }

  lemma TidyCons(c: char, r: string)
    requires Tidy(r) || r == ""
    requires IsAlnum(c) || (c == '-' && (r == "" || r[0] != '-'))
    ensures Tidy("") && Tidy([c] + r)
  {
    var t := [c] + r;
    assert forall i | 0 < i < |t| :: t[i] == r[i - 1];
  }

  lemma {:induction false} SkipGap(s: string, n: nat)
    requires n <= |s| && forall i | 0 <= i < n :: !IsAlnum(s[i])
    ensures Runs(IsAlnum, s[n..]) == Runs(IsAlnum, s)
    decreases n
  {
    if n > 0 {
      SkipGap(s[1..], n - 1);
      assert s[1..][n - 1..] == s[n..];
    } else {
      assert s[0..] == s;
    }
  }

  /** Putting the same character before two texts with the same runs, when both or neither continue a run. */
  lemma RunsCons(c: char, a: string, b: string)
    requires IsAlnum(c) && Runs(IsAlnum, a) == Runs(IsAlnum, b)
    requires (a != "" && IsAlnum(a[0])) <==> (b != "" && IsAlnum(b[0]))
    ensures Runs(IsAlnum, [c] + a) == Runs(IsAlnum, [c] + b)
  {
    RunsOfCons(c, a);
    RunsOfCons(c, b);
  }

  lemma RunsOfCons(c: char, a: string)
    requires IsAlnum(c)
    ensures (a != "" && IsAlnum(a[0])) ==>
      && Runs(IsAlnum, a) != []
      && Runs(IsAlnum, [c] + a) == [[c] + Runs(IsAlnum, a)[0]] + Runs(IsAlnum, a)[1..]
    ensures !(a != "" && IsAlnum(a[0])) ==> Runs(IsAlnum, [c] + a) == [[c]] + Runs(IsAlnum, a)
  {
    var s, n := [c] + a, Lead(IsAlnum, a);
    assert s[1..] == a && Lead(IsAlnum, s) == n + 1;
    hide Runs, Lead;
    RunsUnfold(IsAlnum, a);
    RunsUnfold(IsAlnum, s);
    assert s[..n + 1] == [c] + a[..n] && s[n + 1..] == a[n..];
    if n == 0 {
      assert a[..n] == "" && a[n..] == a;
    }
  }

  /** The slug is what the SQL computes. */
  lemma SlugIsRegex(s: string)
    ensures Slug(s) == RegexSlug(s)
  {
    ReplaceRunsIsTidy(Lower(s));
    TrimIsTidy(ReplaceRuns(Lower(s)));
  }

  lemma LowerKeepsSlugCharacters(s: string)
    requires forall c | c in s :: IsAlnum(c) || c == '-'
    ensures Lower(s) == s
  {
    assert forall i | 0 <= i < |s| :: s[i] in s;
  }

  lemma {:induction false} JoinCharacters(parts: seq<string>, sep: char)
    ensures forall c | c in Join(parts, sep) :: c == sep || exists w | w in parts :: c in w
  {
    if |parts| > 1 {
      JoinCharacters(parts[1..], sep);
      forall c | c in Join(parts, sep)
        ensures c == sep || exists w | w in parts :: c in w
      {
        if c in parts[0] {
          assert parts[0] in parts;
        }
      }
    } else if |parts| == 1 {
      assert parts[0] in parts;
    }
  }

  /** A slug has the words of its text, and is its own slug. */
  lemma SlugKeepsWords(s: string)
    ensures Words(Slug(s)) == Words(s) && Slug(Slug(s)) == Slug(s)
    ensures Slug(s) == "" <==> Words(s) == []
  {
    RunsAreRuns(IsAlnum, Lower(s));
    JoinCharacters(Words(s), '-');
    LowerKeepsSlugCharacters(Slug(s));
    RunsOfJoin(IsAlnum, Words(s), '-');
  }

  /** Two texts have the same slug exactly when they have the same words. */
  lemma SameSlugIsSameWords(a: string, b: string)
    ensures Slug(a) == Slug(b) <==> Words(a) == Words(b)
  {
    SlugKeepsWords(a);
    SlugKeepsWords(b);
  }

  /** `slugVehicle`: one pass with a flag instead of a regular expression. */
  method SlugVehicle(value: string) returns (slug: string)
    ensures slug == Slug(value) == RegexSlug(value)
  {
    hide Runs, Join, RegexSlug, Trim, Lower;
    var text := Lower(TrimSpace(value));
    var b, lastDash, i := "", false, 0;
    while i < |text|
      invariant i <= |text| && Tidy(b) && (b != "" ==> b[0] != '-')
      invariant lastDash <==> b != "" && b[|b| - 1] == '-'
      invariant b != "" && IsAlnum(b[|b| - 1]) <==> i > 0 && IsAlnum(text[i - 1])
      invariant Runs(IsAlnum, b) == Runs(IsAlnum, text[..i])
    {
      var c := text[i];
      assert text[..i + 1] == text[..i] + [c];
      RunsSnoc(IsAlnum, text[..i], c);
      if IsAlnum(c) {
        RunsSnoc(IsAlnum, b, c);
        b := b + [c];
        lastDash := false;
      } else if !lastDash && |b| > 0 {
        RunsSnoc(IsAlnum, b, '-');
        b := b + ['-'];
        lastDash := true;
      }
      i := i + 1;
    }
    assert text[..i] == text;
    TrimIsTidy(b);
    slug := Trim(IsDash, b);
    TrimSpaceKeepsWords(value);
    SlugIsRegex(value);
  }

  predicate IsWordCharacter(c: char) {
    IsAlnum(LowerChar(c))
  }

  function LowerAll(parts: seq<string>): seq<string> {
    seq(|parts|, i requires 0 <= i < |parts| => Lower(parts[i]))
  }

  /** Lowering case and cutting into words commute. */
  lemma {:induction false} WordsAreLoweredRuns(s: string)
    ensures Words(s) == LowerAll(Runs(IsWordCharacter, s))
    decreases |s|
  {
    var n := Lead(IsWordCharacter, s);
    LowerLead(s);
    LowerCommutes(s, n);
    if s == "" {
    } else if n == 0 {
      LowerCommutes(s, 1);
      WordsAreLoweredRuns(s[1..]);
    } else {
      WordsAreLoweredRuns(s[n..]);
      LowerAllCons(s[..n], Runs(IsWordCharacter, s[n..]));
    }
  }

  lemma LowerCommutes(s: string, n: nat)
    requires n <= |s|
    ensures Lower(s)[n..] == Lower(s[n..]) && Lower(s)[..n] == Lower(s[..n])
  {
  }

  lemma LowerLead(s: string)
    ensures Lead(IsAlnum, Lower(s)) == Lead(IsWordCharacter, s)
  {
    hide Lead;
    assert forall i | 0 <= i < |s| :: IsAlnum(Lower(s)[i]) <==> IsWordCharacter(s[i]);
  }

  lemma LowerAllCons(w: string, parts: seq<string>)
    ensures LowerAll([w] + parts) == [Lower(w)] + LowerAll(parts)
  {
  }

  lemma TrimSpaceKeepsWords(s: string)
    ensures Words(TrimSpace(s)) == Words(s)
  {
    TrimKeepsRuns(IsWordCharacter, IsSpace, s);
    WordsAreLoweredRuns(s);
    WordsAreLoweredRuns(TrimSpace(s));
  }

  lemma FieldsKeepWords(s: string)
    ensures Words(Join(Fields(s), ' ')) == Words(s)
  {
    RunsOfCoarser(IsWordCharacter, IsInk, s, ' ');
    WordsAreLoweredRuns(s);
    WordsAreLoweredRuns(Join(Fields(s), ' '));
  }

  /** `strings.ReplaceAll(s, "-", " ")` */
  function DashesToSpaces(s: string): (r: string)
    ensures |r| == |s|
  {
    seq(|s|, i requires 0 <= i < |s| => if s[i] == '-' then ' ' else s[i])
  }

  lemma DashesToSpacesKeepsWords(s: string)
    ensures Words(DashesToSpaces(s)) == Words(s)
  {
    RunsIgnoreTheRest(IsAlnum, Lower(DashesToSpaces(s)), Lower(s));
  }
}

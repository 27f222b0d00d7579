/**
 * library/config.cpp: ${name} references in configuration values. The loop replaces the leftmost
 * reference until there is none, looking at the text anew each time, so that a replacement may
 * bring in references, or complete one that the text had only begun.
 */
module ConfigVars {
  import opened Alphabet

  type Variables = map<string, string>

  predicate IsLetter(c: char) {
    'A' <= c <= 'Z' || 'a' <= c <= 'z'
  }

  predicate IsNameChar(c: char) {
    IsLetter(c) || '0' <= c <= '9' || c == '-'
  }

  // ----- the pattern -----

  function NameLength(t: string): (n: nat)
    ensures n <= |t| && (forall i | 0 <= i < n :: IsNameChar(t[i])) && (n < |t| ==> !IsNameChar(t[n]))
  {
    if t != "" && IsNameChar(t[0]) then 1 + NameLength(t[1..]) else 0
  }

  /** t begins with a match of the regular expression. */
  predicate IsRef(t: string) {
    && |t| > 2 && t[0] == '$' && t[1] == '{' && IsLetter(t[2])
    && 2 + NameLength(t[2..]) < |t| && t[2 + NameLength(t[2..])] == '}'
  }

  function RefName(t: string): (r: string)
    requires IsRef(t)
    ensures |r| + 3 <= |t|
  {
    t[2..2 + NameLength(t[2..])]
  }

  /** Where the leftmost match is, or the end. */
  function FirstRef(s: string): (i: nat)
    ensures i <= |s| && (i < |s| ==> IsRef(s[i..]))
    ensures forall j | 0 <= j < i :: !IsRef(s[j..])
  {
    if s == "" || IsRef(s) then 0
    else
      var i := FirstRef(s[1..]);
      assert forall j | 1 <= j <= |s| :: s[1..][j - 1..] == s[j..];
      1 + i
  }

  predicate ValidName(name: string) {
    name != "" && IsLetter(name[0]) && forall i | 0 <= i < |name| :: IsNameChar(name[i])
  }

  function Show(name: string): string {
    "${" + name + "}"
  }

  lemma {:induction false} NameLengthIs(name: string, rest: string)
    requires forall i | 0 <= i < |name| :: IsNameChar(name[i])
    requires rest != "" && !IsNameChar(rest[0])
    ensures NameLength(name + rest) == |name|
  {
    if name == "" {
      assert name + rest == rest;
    } else {
      assert (name + rest)[1..] == name[1..] + rest;
      NameLengthIs(name[1..], rest);
    }
  }

  lemma ShownIsRef(name: string, rest: string)
    requires ValidName(name)
    ensures IsRef(Show(name) + rest) && RefName(Show(name) + rest) == name
  {
    var t := Show(name) + rest;
    assert t[2..] == name + ("}" + rest);
    NameLengthIs(name, "}" + rest);
    assert t[2..][..|name|] == name;
  }

  lemma RefIsShown(t: string)
    requires IsRef(t)
    ensures ValidName(RefName(t)) && t == Show(RefName(t)) + t[|RefName(t)| + 3..]
  {
    hide IsLetter, IsNameChar;
    var n := NameLength(t[2..]);
    var name := RefName(t);
    forall i | 0 <= i < n
      ensures IsNameChar(name[i])
    {
      assert name[i] == t[2..][i];
    }
    assert n > 0 by {
      assert t[2..][0] == t[2];
      LetterIsNameChar(t[2]);
    }
    assert name[0] == t[2];
    assert t[|name| + 3..] == t[n + 3..];
    ThreeParts(t, n);
  }

  lemma LetterIsNameChar(c: char)
    ensures IsLetter(c) ==> IsNameChar(c)
  {
  }

  lemma ThreeParts(t: string, n: nat)
    requires n + 3 <= |t| && t[0] == '$' && t[1] == '{' && t[2 + n] == '}'
    ensures t == Show(t[2..2 + n]) + t[n + 3..]
  {
    assert Show(t[2..2 + n]) == t[..n + 3];
  }

  // ----- the loop -----

  datatype Progress = Going(text: string) | Resolved(text: string) | Nonexistent(key: string)

  /** One turn of the loop. */
  function Step(vars: Variables, s: string): Progress {
    var i := FirstRef(s);
    if i == |s| then Resolved(s)
    else
      var key := RefName(s[i..]);
      if key !in vars then Nonexistent(key) else Going(s[..i] + vars[key] + s[i + |key| + 3..])
  }

  function After(vars: Variables, s: string, n: nat): Progress
    decreases n
  {
    if n == 0 then Going(s)
    else
      match Step(vars, s)
      case Going(t) => After(vars, t, n - 1)
      case done => done
  }

  ghost predicate Ends(vars: Variables, s: string) {
    exists n: nat :: !After(vars, s, n).Going?
  }

  // ----- one turn, told by characters -----

  /** A name as the pattern has it: a letter, and then letters, digits and dashes. */
  ghost predicate Named(name: string) {
    && name != "" && (name[0] in UPPER || name[0] in LOWER)
    && forall c | c in name :: c in UPPER || c in LOWER || c in DIGITS || c == '-'
  }

  /** t begins with "${", the name and "}". */
  ghost predicate Matches(t: string, name: string) {
    Named(name) && "${" + name + "}" <= t
  }

  lemma CharTables(c: char)
    ensures IsLetter(c) <==> c in UPPER || c in LOWER
    ensures IsNameChar(c) <==> c in UPPER || c in LOWER || c in DIGITS || c == '-'
  {
    hide UPPER, LOWER, DIGITS;
    InUpper(c);
    InLower(c);
    InDigits(c);
  }

  lemma NamedIsValid(name: string)
    ensures Named(name) <==> ValidName(name)
  {
    hide UPPER, LOWER, DIGITS, IsLetter, IsNameChar;
    if name != "" {
      CharTables(name[0]);
    }
    forall i | 0 <= i < |name|
      ensures IsNameChar(name[i]) <==>
              name[i] in UPPER || name[i] in LOWER || name[i] in DIGITS || name[i] == '-'
    {
      CharTables(name[i]);
    }
  }

  /** What the regular expression matches at the beginning of a text, and what it captures. */
  lemma MatchesIff(t: string, name: string)
    ensures Matches(t, name) <==> IsRef(t) && RefName(t) == name
  {
    hide IsRef, Named, ValidName;
    NamedIsValid(name);
    if Matches(t, name) {
      var rest := t[|name| + 3..];
      assert t == "${" + name + "}" + rest;
      ShownIsRef(name, rest);
    }
    if IsRef(t) && RefName(t) == name {
      RefIsShown(t);
      assert Show(name) <= t;
    }
  }

  /** One turn replaces the leftmost reference of a text by its value, or ends at a name that has none. */
  lemma StepReplaces(vars: Variables, before: string, name: string, rest: string)
    requires Named(name)
    requires forall j, n | 0 <= j < |before| :: !Matches((before + Show(name) + rest)[j..], n)
    ensures Step(vars, before + Show(name) + rest) ==
            if name in vars then Going(before + vars[name] + rest) else Nonexistent(name)
  {
    hide IsRef, Named, Matches, FirstRef;
    var s, i := before + Show(name) + rest, |before|;
    assert s[i..] == Show(name) + rest;
    assert Matches(s[i..], name) by { ShowMatches(name, rest); }
    MatchesIff(s[i..], name);
    forall j | 0 <= j < i
      ensures !IsRef(s[j..])
    {
      NoMatch(s[j..]);
    }
    var f := FirstRef(s);
    assert f == i;
    assert s[..i] == before && s[i + |name| + 3..] == rest;
  }

  lemma ShowMatches(name: string, rest: string)
    requires Named(name)
    ensures Matches(Show(name) + rest, name)
  {
  }

  lemma NoMatch(t: string)
    requires forall n :: !Matches(t, n)
    ensures !IsRef(t)
  {
    hide Matches, IsRef;
    if IsRef(t) {
      MatchesIff(t, RefName(t));
    }
  }

  /** Without a reference the text is the result. */
  lemma StepResolves(vars: Variables, s: string)
    requires forall j, n | 0 <= j < |s| :: !Matches(s[j..], n)
    ensures Step(vars, s) == Resolved(s)
  {
    hide IsRef, Matches;
    var i := FirstRef(s);
    if i < |s| {
      NoMatch(s[i..]);
    }
  }

  // ----- texts by where their references come from -----

  datatype Token = Plain(c: char) | Ref(name: string)

  function ShowToken(t: Token): string {
    match t
    case Plain(c) => [c]
    case Ref(name) => Show(name)
  }

  function Flat(ts: seq<Token>): string {
    if ts == [] then "" else ShowToken(ts[0]) + Flat(ts[1..])
  }

  /** The complete references of a text, and the characters around them. */
  function Tokens(s: string): (ts: seq<Token>)
    decreases |s|
  {
    if s == "" then []
    else if IsRef(s) then [Ref(RefName(s))] + Tokens(s[|RefName(s)| + 3..])
    else [Plain(s[0])] + Tokens(s[1..])
  }

  ghost predicate Sound(ts: seq<Token>) {
    forall t | t in ts :: t.Ref? ==> ValidName(t.name)
  }

  lemma {:induction false} TokensFlatten(s: string)
    ensures Flat(Tokens(s)) == s && Sound(Tokens(s))
    decreases |s|
  {
    if s == "" {
    } else if IsRef(s) {
      RefIsShown(s);
      TokensFlatten(s[|RefName(s)| + 3..]);
    } else {
      TokensFlatten(s[1..]);
    }
  }

  lemma {:induction false} FlatConcat(a: seq<Token>, b: seq<Token>)
    ensures Flat(a + b) == Flat(a) + Flat(b)
  {
    hide ShowToken;
    if a == [] {
      assert a + b == b;
    } else {
      assert (a + b)[1..] == a[1..] + b;
      FlatConcat(a[1..], b);
    }
  }

  /** How many '$' stand outside references. */
  function Strays(ts: seq<Token>): nat {
    if ts == [] then 0 else (if ts[0] == Plain('$') then 1 else 0) + Strays(ts[1..])
  }

  lemma {:induction false} StraysConcat(a: seq<Token>, b: seq<Token>)
    ensures Strays(a + b) == Strays(a) + Strays(b)
  {
    if a == [] {
      assert a + b == b;
    } else {
      assert (a + b)[1..] == a[1..] + b;
      StraysConcat(a[1..], b);
    }
  }

  /** Characters up to k that are no '$' are tokens of their own. */
  lemma {:induction false} PlainPrefix(ts: seq<Token>, k: nat)
    requires k <= |Flat(ts)| && forall i | 0 <= i < k :: Flat(ts)[i] != '$'
    ensures k <= |ts| && Flat(ts[k..]) == Flat(ts)[k..]
  {
    if k > 0 {
      assert Flat(ts)[0] == ShowToken(ts[0])[0];
      assert Flat(ts)[1..] == Flat(ts[1..]);
      forall i | 0 <= i < k - 1
        ensures Flat(ts[1..])[i] != '$'
      {
        assert Flat(ts[1..])[i] == Flat(ts)[i + 1];
      }
      PlainPrefix(ts[1..], k - 1);
      assert ts[1..][k - 1..] == ts[k..];
    }
  }

  /** The leftmost match of a text is one of its references, or begins with a stray '$'; either way
      it reaches from token p to token q. */
  ghost predicate FirstAt(ts: seq<Token>, p: nat, q: nat) {
    var s := Flat(ts);
    var i := FirstRef(s);
    && i < |s| && p < q <= |ts|
    && var key := RefName(s[i..]);
    && Flat(ts[..p]) == s[..i] && Flat(ts[q..]) == s[i + |key| + 3..]
    && (ts[p] == Plain('$') || (ts[p] == Ref(key) && q == p + 1))
    && forall t | t in ts[..p] :: t.Plain?
  }

  lemma RefHead(ts: seq<Token>)
    requires Sound(ts) && ts != [] && ts[0].Ref?
    ensures FirstAt(ts, 0, 1)
  {
    hide IsRef;
    assert ts[0] in ts;
    var name := ts[0].name;
    var s := Flat(ts);
    ShownIsRef(name, Flat(ts[1..]));
    assert s == Show(name) + Flat(ts[1..]);
    assert s[0..] == s && s[..0] == "";
    assert s[|name| + 3..] == Flat(ts[1..]);
  }

  lemma StrayHead(ts: seq<Token>)
    requires ts != [] && ts[0].Plain? && IsRef(Flat(ts))
    ensures exists q :: FirstAt(ts, 0, q)
  {
    hide IsRef;
    var s, rest := Flat(ts), ts[1..];
    var n := |RefName(s)|;
    RefIsShown(s);
    assert s == Show(RefName(s)) + s[n + 3..] && s[0] == '$';
    assert s == [ts[0].c] + Flat(rest);
    assert s[1..] == Flat(rest);
    hide Flat;
    PlainPrefix(rest, n + 2);
    assert rest[n + 2..] == ts[n + 3..] && s[1..][n + 2..] == s[n + 3..];
    assert s[0..] == s && s[..0] == "";
    assert FirstAt(ts, 0, n + 3);
  }

  lemma OneOn(s: string)
    requires s != "" && !IsRef(s) && FirstRef(s[1..]) < |s| - 1
    ensures var i := FirstRef(s[1..]);
            var n := |RefName(s[i + 1..])|;
            && FirstRef(s) == i + 1 && s[1..][i..] == s[i + 1..]
            && s[..i + 1] == s[..1] + s[1..][..i] && s[1..][i + n + 3..] == s[i + 1 + n + 3..]
  {
    hide IsRef;
    var i := FirstRef(s[1..]);
    assert FirstRef(s) == i + 1;
    assert s[1..][i..] == s[i + 1..];
  }

  lemma OneTokenOn(ts: seq<Token>, p: nat, q: nat)
    requires p < q < |ts|
    ensures ts[1..][q..] == ts[q + 1..] && ts[1..][p] == ts[p + 1]
    ensures ts[..p + 1] == [ts[0]] + ts[1..][..p] && ts[..p + 1][1..] == ts[1..][..p]
  {
  }

  lemma PlainFlat(ts: seq<Token>)
    requires ts != [] && ts[0].Plain?
    ensures Flat(ts) != "" && Flat(ts)[1..] == Flat(ts[1..]) && Flat(ts)[..1] == [ts[0].c]
    ensures Flat(ts) == [ts[0].c] + Flat(ts[1..])
  {
  }

  lemma PlainHead(ts: seq<Token>, p: nat, q: nat)
    requires ts != [] && ts[0].Plain? && !IsRef(Flat(ts)) && FirstAt(ts[1..], p, q)
    ensures FirstAt(ts, p + 1, q + 1)
  {
    hide IsRef, FirstRef, RefName, Flat;
    var s := Flat(ts);
    PlainFlat(ts);
    OneOn(s);
    OneTokenOn(ts, p, q);
    PlainFlat(ts[..p + 1]);
    assert ts[..p + 1][0] == ts[0];
  }

  lemma {:induction false} FirstRefToken(ts: seq<Token>) returns (p: nat, q: nat)
    requires Sound(ts) && FirstRef(Flat(ts)) < |Flat(ts)|
    ensures FirstAt(ts, p, q)
  {
    hide FirstAt, IsRef;
    if ts[0].Ref? {
      RefHead(ts);
      p, q := 0, 1;
    } else if IsRef(Flat(ts)) {
      StrayHead(ts);
      p := 0;
      q :| FirstAt(ts, 0, q);
    } else {
      assert Flat(ts)[1..] == Flat(ts[1..]);
      assert forall t | t in ts[1..] :: t in ts;
      p, q := FirstRefToken(ts[1..]);
      PlainHead(ts, p, q);
      p, q := p + 1, q + 1;
    }
  }

  // ----- variables -----

  /** Values contain '$' in complete references only. */
  ghost predicate WellFormed(vars: Variables) {
    forall k | k in vars :: Strays(Tokens(vars[k])) == 0
  }

  predicate Mentions(vars: Variables, k: string, n: string)
    requires k in vars
  {
    Ref(n) in Tokens(vars[k])
  }

  /** Wherever variables are taken from, one of them refers to none of the others, nor to itself. */
  ghost predicate Acyclic(vars: Variables) {
    forall c: set<string> | c != {} && c <= vars.Keys :: !Trap(vars, c)
  }

  /** Each of these variables refers to one of them. */
  ghost predicate Trap(vars: Variables, c: set<string>)
    requires c <= vars.Keys
  {
    forall k | k in c :: MentionsOneOf(vars, k, c)
  }

  ghost predicate MentionsOneOf(vars: Variables, k: string, c: set<string>)
    requires k in vars
  {
    exists n | n in c :: Mentions(vars, k, n)
  }

  lemma TrapAt(vars: Variables, c: set<string>, k: string) returns (n: string)
    requires c <= vars.Keys && Trap(vars, c) && k in c
    ensures n in c && Mentions(vars, k, n)
  {
    hide Mentions;
    assert MentionsOneOf(vars, k, c) by { hide MentionsOneOf; }
    n :| n in c && Mentions(vars, k, n);
  }

  type Weights = map<string, nat>

  function Weight(w: Weights, t: Token): nat {
    if t.Ref? && t.name in w then w[t.name] else 0
  }

  function Sum(w: Weights, ts: seq<Token>): nat {
    if ts == [] then 0 else Weight(w, ts[0]) + Sum(w, ts[1..])
  }

  /** A variable weighs more than all it refers to. */
  ghost predicate Weighted(vars: Variables, w: Weights) {
    w.Keys == vars.Keys && forall k | k in vars :: Sum(w, Tokens(vars[k])) < w[k]
  }

  lemma {:induction false} SumConcat(w: Weights, a: seq<Token>, b: seq<Token>)
    ensures Sum(w, a + b) == Sum(w, a) + Sum(w, b)
  {
    if a == [] {
      assert a + b == b;
    } else {
      assert (a + b)[1..] == a[1..] + b;
      SumConcat(w, a[1..], b);
    }
  }

  lemma {:induction false} SumStays(w: Weights, k: string, x: nat, ts: seq<Token>)
    requires k !in w && Ref(k) !in ts
    ensures Sum(w[k := x], ts) == Sum(w, ts)
  {
    if ts != [] {
      assert ts[0] in ts && forall t | t in ts[1..] :: t in ts;
      SumStays(w, k, x, ts[1..]);
    }
  }

  /** Variables can be weighed one after the other, each behind those it refers to. */
  lemma Weigh(vars: Variables) returns (w: Weights)
    requires Acyclic(vars)
    ensures Weighted(vars, w)
  {
    hide Tokens, Sum;
    w := map[];
    while w.Keys != vars.Keys
      invariant w.Keys <= vars.Keys
      invariant forall k | k in w :: Sum(w, Tokens(vars[k])) < w[k]
      invariant forall k, n | k in w && n in vars && Mentions(vars, k, n) :: n in w
      decreases |vars.Keys - w.Keys|
    {
      var left := vars.Keys - w.Keys;
      assert left != {} && !Trap(vars, left);
      var k :| k in left && !MentionsOneOf(vars, k, left);
      assert forall n | n in left :: !Mentions(vars, k, n);
      var x := Sum(w, Tokens(vars[k])) + 1;
      forall j | j in w[k := x]
        ensures Sum(w[k := x], Tokens(vars[j])) < w[k := x][j]
      {
        assert !Mentions(vars, j, k);
        SumStays(w, k, x, Tokens(vars[j]));
      }
      assert vars.Keys - w[k := x].Keys == left - {k};
      w := w[k := x];
    }
  }

  lemma {:induction false} SumCovers(w: Weights, ts: seq<Token>, t: Token)
    requires t in ts
    ensures Weight(w, t) <= Sum(w, ts)
  {
    if t != ts[0] {
      SumCovers(w, ts[1..], t);
    }
  }

  lemma {:induction false} NoTrap(vars: Variables, w: Weights, c: set<string>, k: string)
    requires Weighted(vars, w) && c <= vars.Keys && Trap(vars, c) && k in c
    ensures false
    decreases w[k]
  {
    hide Trap;
    var n := TrapAt(vars, c, k);
    SumCovers(w, Tokens(vars[k]), Ref(n));
    NoTrap(vars, w, c, n);
  }

  /** And where they can be weighed, no variable refers back to itself. */
  lemma WeightedIsAcyclic(vars: Variables, w: Weights)
    requires Weighted(vars, w)
    ensures Acyclic(vars)
  {
    hide Trap, Weighted;
    forall c: set<string> | c != {} && c <= vars.Keys
      ensures !Trap(vars, c)
    {
      if Trap(vars, c) {
        var k :| k in c;
        NoTrap(vars, w, c, k);
      }
    }
  }

  // ----- the loop ends -----

  /** The measure: strays first, and then the weight of all references. */
  lemma StepShrinks(vars: Variables, w: Weights, ts: seq<Token>) returns (r: seq<Token>)
    requires WellFormed(vars) && Weighted(vars, w) && Sound(ts) && Step(vars, Flat(ts)).Going?
    ensures Sound(r) && Flat(r) == Step(vars, Flat(ts)).text
    ensures Strays(r) < Strays(ts) || (Strays(r) == Strays(ts) && Sum(w, r) < Sum(w, ts))
  {
    hide IsRef, Flat, Tokens, Sum, Strays, Sound;
    var p, q := FirstRefToken(ts);
    var s := Flat(ts);
    var key := RefName(s[FirstRef(s)..]);
    var new_ := Tokens(vars[key]);
    TokensFlatten(vars[key]);
    r := ts[..p] + new_ + ts[q..];
    FlatConcat(ts[..p], new_);
    FlatConcat(ts[..p] + new_, ts[q..]);
    Cuts(ts, p, q);
    StraysConcat(ts[..p], new_);
    StraysConcat(ts[..p] + new_, ts[q..]);
    SumConcat(w, ts[..p], new_);
    SumConcat(w, ts[..p] + new_, ts[q..]);
    SoundParts(ts, p, new_, q);
    Measured(w, ts, p, q);
  }

  lemma SoundParts(ts: seq<Token>, p: nat, new_: seq<Token>, q: nat)
    requires p <= q <= |ts| && Sound(ts) && Sound(new_)
    ensures Sound(ts[..p] + new_ + ts[q..])
  {
    hide ValidName;
    forall t | t in ts[..p] + new_ + ts[q..]
      ensures t.Ref? ==> ValidName(t.name)
    {
      assert t in ts || t in new_;
    }
  }

  lemma Cuts(ts: seq<Token>, p: nat, q: nat)
    requires p < q <= |ts|
    ensures ts == ts[..p] + ts[p..q] + ts[q..] && ts[p..q] == [ts[p]] + ts[p + 1..q]
  {
  }

  lemma Measured(w: Weights, ts: seq<Token>, p: nat, q: nat)
    requires p < q <= |ts|
    ensures Strays(ts) >= Strays(ts[..p]) + Strays(ts[q..]) + (if ts[p] == Plain('$') then 1 else 0)
    ensures q == p + 1 ==> Sum(w, ts) == Sum(w, ts[..p]) + Weight(w, ts[p]) + Sum(w, ts[q..])
    ensures q == p + 1 ==> Strays(ts) == Strays(ts[..p]) + Strays(ts[q..]) + (if ts[p] == Plain('$') then 1 else 0)
  {
    var a, m, b := ts[..p], ts[p..q], ts[q..];
    Cuts(ts, p, q);
    StraysConcat(a, m);
    StraysConcat(a + m, b);
    SumConcat(w, a, m);
    SumConcat(w, a + m, b);
    assert m[0] == ts[p];
  }

  /** The loop itself. */
  method ResolveVariables(vars: Variables, val: string) returns (r: Progress)
    requires WellFormed(vars) && Acyclic(vars)
    ensures !r.Going? && exists n: nat :: After(vars, val, n) == r
    ensures r.Resolved? ==> FirstRef(r.text) == |r.text|
    ensures r.Nonexistent? ==> r.key !in vars
  {
    hide Flat, Tokens, Strays, Sum, IsRef, After, Sound, Weighted, WellFormed;
    ghost var w := Weigh(vars);
    var s := val;
    ghost var ts, n := Tokens(val), 0;
    TokensFlatten(val);
    AfterNothing(vars, val);
    while FirstRef(s) != |s|
      invariant s == Flat(ts) && Sound(ts)
      invariant After(vars, val, n) == Going(s)
      decreases Strays(ts), Sum(w, ts)
    {
      var i := FirstRef(s);
      var key := RefName(s[i..]);
      OneMore(vars, val, n);
      if key !in vars {
        return Nonexistent(key);
      }
      ts := StepShrinks(vars, w, ts);
      s := s[..i] + vars[key] + s[i + |key| + 3..];
      n := n + 1;
    }
    OneMore(vars, val, n);
    return Resolved(s);
  }

  lemma AfterNothing(vars: Variables, s: string)
    ensures After(vars, s, 0) == Going(s)
  {
  }

  lemma {:induction false} OneMore(vars: Variables, s: string, n: nat)
    requires After(vars, s, n).Going?
    ensures After(vars, s, n + 1) == Step(vars, After(vars, s, n).text)
    decreases n
  {
    hide Step;
    if n > 0 {
      OneMore(vars, Step(vars, s).text, n - 1);
    } else {
      assert After(vars, s, 1) == Step(vars, s);
    }
  }

  lemma {:induction false} LoopEnds(vars: Variables, w: Weights, ts: seq<Token>)
    requires WellFormed(vars) && Weighted(vars, w) && Sound(ts)
    ensures Ends(vars, Flat(ts))
    decreases Strays(ts), Sum(w, ts)
  {
    hide Step;
    var s := Flat(ts);
    if Step(vars, s).Going? {
      var r := StepShrinks(vars, w, ts);
      LoopEnds(vars, w, r);
      var n: nat :| !After(vars, Flat(r), n).Going?;
      assert After(vars, s, n + 1) == After(vars, Flat(r), n);
    } else {
      assert After(vars, s, 1) == Step(vars, s);
    }
  }

  // ----- and only for such variables -----

  /** Every reference in a value has a variable. */
  ghost predicate Closed(vars: Variables) {
    forall k, n | k in vars && Mentions(vars, k, n) :: n in vars
  }

  ghost predicate Trapped(vars: Variables, c: set<string>, ts: seq<Token>) {
    && Sound(ts) && Strays(ts) == 0 && (forall n | Ref(n) in ts :: n in vars) && Holds(c, ts)
  }

  lemma {:induction false} HasRef(ts: seq<Token>, n: string)
    requires Sound(ts) && Ref(n) in ts
    ensures FirstRef(Flat(ts)) < |Flat(ts)|
  {
    var rest := ts[1..];
    assert forall t | t in rest :: t in ts;
    if ts[0].Ref? {
      assert ts[0] in ts;
      ShownIsRef(ts[0].name, Flat(rest));
    } else {
      assert Flat(ts)[1..] == Flat(rest);
      assert ts == [ts[0]] + rest;
      HasRef(rest, n);
    }
  }

  /** Some reference in the text is one of c's. */
  ghost predicate Holds(c: set<string>, ts: seq<Token>) {
    exists n | n in c :: Ref(n) in ts
  }

  lemma Around<T>(a: seq<T>, b: seq<T>, c: seq<T>, x: T)
    ensures x in a + b + c <==> x in a || x in b || x in c
  {
  }

  /** Replacing a reference leaves one of c's, be it the replaced one or another. */
  lemma StillHolds(vars: Variables, c: set<string>, ts: seq<Token>, p: nat, key: string)
    requires c <= vars.Keys && Trap(vars, c) && Holds(c, ts)
    requires p < |ts| && ts[p] == Ref(key) && key in vars
    ensures Holds(c, ts[..p] + Tokens(vars[key]) + ts[p + 1..])
  {
    hide Tokens, Trap;
    var new_ := Tokens(vars[key]);
    var n :| n in c && Ref(n) in ts;
    if n == key {
      n := TrapAt(vars, c, key);
    } else {
      assert ts == ts[..p] + [Ref(key)] + ts[p + 1..];
      Around(ts[..p], [Ref(key)], ts[p + 1..], Ref(n));
    }
    Around(ts[..p], new_, ts[p + 1..], Ref(n));
  }

  lemma StepStaysTrapped(vars: Variables, c: set<string>, ts: seq<Token>) returns (r: seq<Token>)
    requires WellFormed(vars) && Closed(vars) && c <= vars.Keys && Trap(vars, c) && Trapped(vars, c, ts)
    ensures Step(vars, Flat(ts)) == Going(Flat(r)) && Trapped(vars, c, r)
  {
    hide IsRef, Flat, Tokens, Strays, FirstRef, Trap, Holds;
    HoldsRef(c, ts);
    var p, q := FirstRefToken(ts);
    Measured(map[], ts, p, q);
    var key := ts[p].name;
    assert ts[p] in ts && key in vars;
    var new_ := Tokens(vars[key]);
    TokensFlatten(vars[key]);
    r := ts[..p] + new_ + ts[q..];
    FlatConcat(ts[..p], new_);
    FlatConcat(ts[..p] + new_, ts[q..]);
    StraysConcat(ts[..p], new_);
    StraysConcat(ts[..p] + new_, ts[q..]);
    StillHolds(vars, c, ts, p, key);
    forall t | t in r
      ensures t in ts || t in new_
    {
    }
    assert forall m | Ref(m) in new_ :: Mentions(vars, key, m);
  }

  lemma HoldsRef(c: set<string>, ts: seq<Token>)
    requires Sound(ts) && Holds(c, ts)
    ensures FirstRef(Flat(ts)) < |Flat(ts)|
  {
    hide Sound;
    var n :| n in c && Ref(n) in ts;
    HasRef(ts, n);
  }

  lemma {:induction false} NeverEnds(vars: Variables, c: set<string>, ts: seq<Token>, n: nat)
    requires WellFormed(vars) && Closed(vars) && c <= vars.Keys && Trap(vars, c) && Trapped(vars, c, ts)
    ensures After(vars, Flat(ts), n).Going?
    decreases n
  {
    hide Step, Trapped, Trap;
    if n > 0 {
      var r := StepStaysTrapped(vars, c, ts);
      NeverEnds(vars, c, r, n - 1);
    }
  }

  /** When values are well formed and refer to variables there are, the loop ends on every text
      exactly when no variable refers back to itself. */
  lemma EndsIffAcyclic(vars: Variables)
    requires WellFormed(vars) && Closed(vars)
    ensures Acyclic(vars) <==> forall s :: Ends(vars, s)
  {
    if Acyclic(vars) {
      var w := Weigh(vars);
      forall s
        ensures Ends(vars, s)
      {
        TokensFlatten(s);
        LoopEnds(vars, w, Tokens(s));
      }
    } else {
      var c: set<string> :| c != {} && c <= vars.Keys && Trap(vars, c);
      TrapCatches(vars, c);
    }
  }

  lemma TrapCatches(vars: Variables, c: set<string>)
    requires WellFormed(vars) && Closed(vars) && c != {} && c <= vars.Keys && Trap(vars, c)
    ensures exists s :: !Ends(vars, s)
  {
    hide Tokens, IsRef, After, WellFormed, Trap;
    var k :| k in c;
    var n := TrapAt(vars, c, k);
    TokensFlatten(vars[k]);
    assert ValidName(n);
    var ts := [Ref(n)];
    assert Ref(n) in ts;
    assert Sound(ts);
    assert Strays(ts) == 0;
    assert Holds(c, ts);
    assert Trapped(vars, c, ts);
    forall m: nat
      ensures After(vars, Flat(ts), m).Going?
    {
      NeverEnds(vars, c, ts, m);
    }
    assert !Ends(vars, Flat(ts));
  }

  // ----- one text -----

  /** All variables that refer back to themselves, directly or not, or to such variables. */
  lemma GreatestTrap(vars: Variables) returns (t: set<string>)
    ensures t <= vars.Keys && Trap(vars, t)
    ensures forall c: set<string> | c <= vars.Keys && Trap(vars, c) :: c <= t
  {
    t := vars.Keys;
    while !Trap(vars, t)
      invariant t <= vars.Keys
      invariant forall c: set<string> | c <= vars.Keys && Trap(vars, c) :: c <= t
      decreases t
    {
      var k :| k in t && !MentionsOneOf(vars, k, t);
      forall c: set<string> | c <= vars.Keys && Trap(vars, c)
        ensures c <= t - {k}
      {
        if k in c {
          var n := TrapAt(vars, c, k);
          OneOf(vars, k, t, n);
          assert false;
        }
      }
      t := t - {k};
    }
  }

  /** The variables outside t. */
  function Without(vars: Variables, t: set<string>): (g: Variables)
    ensures g.Keys == vars.Keys - t && forall k | k in g :: g[k] == vars[k]
  {
    map k | k in vars && k !in t :: vars[k]
  }

  /** A variable that refers into a trap is in one. */
  lemma GrowTrap(vars: Variables, t: set<string>, k: string, n: string)
    requires t <= vars.Keys && Trap(vars, t) && k in vars && n in t && Mentions(vars, k, n)
    ensures Trap(vars, t + {k}) && k in t + {k}
  {
    hide Mentions, MentionsOneOf, Trap;
    forall j | j in t + {k}
      ensures MentionsOneOf(vars, j, t + {k})
    {
      var m := n;
      if j in t {
        m := TrapAt(vars, t, j);
      }
      OneOf(vars, j, t + {k}, m);
    }
    TrapBy(vars, t + {k});
  }

  lemma OneOf(vars: Variables, j: string, c: set<string>, m: string)
    requires j in vars && m in c && Mentions(vars, j, m)
    ensures MentionsOneOf(vars, j, c)
  {
    hide Mentions;
  }

  lemma TrapBy(vars: Variables, c: set<string>)
    requires c <= vars.Keys && forall k | k in c :: MentionsOneOf(vars, k, c)
    ensures Trap(vars, c)
  {
    hide MentionsOneOf;
  }

  lemma SameTrap(vars: Variables, g: Variables, c: set<string>)
    requires c <= g.Keys <= vars.Keys && (forall k | k in g :: g[k] == vars[k]) && Trap(g, c)
    ensures Trap(vars, c)
  {
    hide Tokens, MentionsOneOf, Trap;
    forall k | k in c
      ensures MentionsOneOf(vars, k, c)
    {
      var n := TrapAt(g, c, k);
      OneOf(vars, k, c, n);
    }
    TrapBy(vars, c);
  }

  /** Variables outside the greatest trap do not refer into it, and have none among themselves. */
  lemma OutsideIsSafe(vars: Variables, t: set<string>)
    requires WellFormed(vars) && Closed(vars) && t <= vars.Keys && Trap(vars, t)
    requires forall c: set<string> | c <= vars.Keys && Trap(vars, c) :: c <= t
    ensures var g := Without(vars, t); WellFormed(g) && Closed(g) && Acyclic(g)
  {
    hide Tokens, Trap;
    var g := Without(vars, t);
    forall k, n | k in g && Mentions(g, k, n)
      ensures n in g
    {
      assert Mentions(vars, k, n);
      if n in t {
        GrowTrap(vars, t, k, n);
        assert false;
      }
    }
    forall c: set<string> | c != {} && c <= g.Keys
      ensures !Trap(g, c)
    {
      var k :| k in c;
      if Trap(g, c) {
        SameTrap(vars, g, c);
        assert false;
      }
    }
  }

  /** Every reference of a text has a variable. */
  ghost predicate Refers(vars: Variables, ts: seq<Token>) {
    Sound(ts) && Strays(ts) == 0 && forall n | Ref(n) in ts :: n in vars
  }

  /** One turn of the loop when all references have variables; no others are looked at. */
  lemma CleanStep(vars: Variables, g: Variables, ts: seq<Token>) returns (r: seq<Token>)
    requires WellFormed(g) && Closed(g) && Refers(g, ts)
    requires g.Keys <= vars.Keys && forall k | k in g :: g[k] == vars[k]
    ensures Step(vars, Flat(ts)) == Step(g, Flat(ts))
    ensures Step(g, Flat(ts)).Going? ==> Step(g, Flat(ts)).text == Flat(r) && Refers(g, r)
  {
    hide IsRef, Flat, Tokens, Strays, FirstRef;
    r := ts;
    if FirstRef(Flat(ts)) < |Flat(ts)| {
      var p, q := FirstRefToken(ts);
      Measured(map[], ts, p, q);
      var key := ts[p].name;
      assert ts[p] in ts && key in g;
      var new_ := Tokens(g[key]);
      TokensFlatten(g[key]);
      r := ts[..p] + new_ + ts[q..];
      FlatConcat(ts[..p], new_);
      FlatConcat(ts[..p] + new_, ts[q..]);
      StraysConcat(ts[..p], new_);
      StraysConcat(ts[..p] + new_, ts[q..]);
      forall t | t in r
        ensures t in ts || t in new_
      {
        Around(ts[..p], new_, ts[q..], t);
      }
      assert forall n | Ref(n) in new_ :: Mentions(g, key, n);
    }
  }

  lemma {:induction false} SameRun(vars: Variables, g: Variables, ts: seq<Token>, n: nat)
    requires WellFormed(g) && Closed(g) && Refers(g, ts)
    requires g.Keys <= vars.Keys && forall k | k in g :: g[k] == vars[k]
    ensures After(vars, Flat(ts), n) == After(g, Flat(ts), n)
    decreases n
  {
    hide Step, Refers, WellFormed, Closed;
    if n > 0 {
      var r := CleanStep(vars, g, ts);
      if Step(g, Flat(ts)).Going? {
        SameRun(vars, g, r, n - 1);
      }
    }
  }

  /** One of the text's references is in a trap, or leads into one. */
  ghost predicate Caught(vars: Variables, s: string) {
    exists c: set<string> :: c <= vars.Keys && Trap(vars, c) && Holds(c, Tokens(s))
  }

  /** For each text: the loop ends on it exactly when none of its references leads into a trap. */
  lemma TextEndsIff(vars: Variables, s: string)
    requires WellFormed(vars) && Closed(vars) && Refers(vars, Tokens(s))
    ensures Ends(vars, s) <==> !Caught(vars, s)
  {
    hide Step, Tokens, WellFormed, Closed, Trap, Holds, Acyclic, After, IsRef;
    var ts := Tokens(s);
    TokensFlatten(s);
    if Caught(vars, s) {
      var c: set<string> :| c <= vars.Keys && Trap(vars, c) && Holds(c, ts);
      assert Trapped(vars, c, ts);
      forall n: nat
        ensures After(vars, s, n).Going?
      {
        NeverEnds(vars, c, ts, n);
      }
    } else {
      var t := GreatestTrap(vars);
      var g := Without(vars, t);
      OutsideIsSafe(vars, t);
      assert !Holds(t, ts);
      NotHeld(vars, t, ts);
      var w := Weigh(g);
      LoopEnds(g, w, ts);
      var n: nat :| !After(g, s, n).Going?;
      SameRun(vars, g, ts, n);
    }
  }

  lemma NotHeld(vars: Variables, t: set<string>, ts: seq<Token>)
    requires Refers(vars, ts) && !Holds(t, ts)
    ensures Refers(Without(vars, t), ts)
  {
    hide Sound, Strays;
  }

  lemma StepOnRef(vars: Variables, name: string, rest: string)
    requires ValidName(name) && name in vars
    ensures Step(vars, Show(name) + rest) == Going(vars[name] + rest)
  {
    hide IsRef;
    ShownIsRef(name, rest);
    var s := Show(name) + rest;
    assert s[0..] == s && s[..0] == "" && s[|name| + 3..] == rest;
  }

  lemma ShortIsNoRef(t: string)
    requires |t| < 4
    ensures !IsRef(t)
  {
  }

  lemma TokensOfStrays()
    ensures Tokens("${b}}") == [Ref("b"), Plain('}')]
    ensures Tokens("${a") == [Plain('$'), Plain('{'), Plain('a')]
  {
    hide IsRef;
    assert "${b}}" == Show("b") + "}" && "${b}}"[4..] == "}";
    ShownIsRef("b", "}");
    ShortIsNoRef("}");
    ShortIsNoRef("${a");
    ShortIsNoRef("{a");
    ShortIsNoRef("a");
    assert "${a"[1..] == "{a" && "{a"[1..] == "a";
  }

  /** Two variables of which one refers to the other, and neither to itself. */
  lemma StrayDollarAcyclic()
    ensures var vars := map["a" := "${b}}", "b" := "${a"];
            Acyclic(vars) && Closed(vars)
  {
    hide Tokens, Acyclic;
    var vars := map["a" := "${b}}", "b" := "${a"];
    TokensOfStrays();
    assert Weighted(vars, map["a" := 2, "b" := 1]) by {
      assert [Ref("b"), Plain('}')][1..] == [Plain('}')];
      assert [Plain('$'), Plain('{'), Plain('a')][1..] == [Plain('{'), Plain('a')];
    }
    WeightedIsAcyclic(vars, map["a" := 2, "b" := 1]);
    forall k, n | k in vars && Mentions(vars, k, n)
      ensures n in vars
    {
      assert k == "a" || k == "b";
    }
  }

  /** Without the condition on '$' that is not so: two values make a reference between them. */
  lemma {:induction false} StrayDollarLoops(n: nat)
    ensures var vars := map["a" := "${b}}", "b" := "${a"];
            After(vars, "${a}", n).Going?
    decreases n
  {
    hide Step;
    var vars := map["a" := "${b}}", "b" := "${a"];
    assert "${a}" == Show("a") + "" && "${b}}" == Show("b") + "}";
    assert "${b}}" + "" == "${b}}" && "${a" + "}" == "${a}";
    StepOnRef(vars, "a", "");
    StepOnRef(vars, "b", "}");
    if n > 1 {
      StrayDollarLoops(n - 2);
      assert After(vars, "${a}", n) == After(vars, "${b}}", n - 1) == After(vars, "${a}", n - 2);
    }
  }

  // ----- what a value resolves to -----

  /** A failure on the left comes first. */
  function Then(a: Progress, b: Progress): Progress {
    if a.Nonexistent? then a else if b.Nonexistent? then b else Resolved(a.text + b.text)
  }

  /** The meaning of a text: every reference stands for the meaning of its variable's value. */
  ghost function Expand(vars: Variables, w: Weights, ts: seq<Token>): (r: Progress)
    requires Weighted(vars, w)
    ensures !r.Going?
    decreases Sum(w, ts), |ts|
  {
    if ts == [] then Resolved("")
    else
      match ts[0]
      case Plain(c) => Then(Resolved([c]), Expand(vars, w, ts[1..]))
      case Ref(name) =>
        if name !in vars then Nonexistent(name)
        else Then(Expand(vars, w, Tokens(vars[name])), Expand(vars, w, ts[1..]))
  }

  lemma ThenAssociates(a: Progress, b: Progress, c: Progress)
    ensures Then(Then(a, b), c) == Then(a, Then(b, c))
  {
    assert a.Nonexistent? || b.Nonexistent? || c.Nonexistent? || (a.text + b.text) + c.text == a.text + (b.text + c.text);
  }

  lemma {:induction false} ExpandConcat(vars: Variables, w: Weights, a: seq<Token>, b: seq<Token>)
    requires Weighted(vars, w)
    ensures Expand(vars, w, a + b) == Then(Expand(vars, w, a), Expand(vars, w, b))
    decreases |a|
  {
    hide Weighted, Tokens;
    if a == [] {
      assert a + b == b;
      ThenNothing(Expand(vars, w, b));
    } else {
      assert (a + b)[1..] == a[1..] + b;
      ExpandConcat(vars, w, a[1..], b);
      var rest, tail := Expand(vars, w, a[1..]), Expand(vars, w, b);
      match a[0]
      case Plain(c) => ThenAssociates(Resolved([c]), rest, tail);
      case Ref(name) =>
        if name in vars {
          ThenAssociates(Expand(vars, w, Tokens(vars[name])), rest, tail);
        }
    }
  }

  lemma ThenNothing(r: Progress)
    requires !r.Going?
    ensures Then(Resolved(""), r) == r && Then(r, Resolved("")) == r
  {
  }

  lemma {:induction false} PlainExpands(vars: Variables, w: Weights, ts: seq<Token>)
    requires Weighted(vars, w) && forall t | t in ts :: t.Plain?
    ensures Expand(vars, w, ts) == Resolved(Flat(ts))
  {
    hide Weighted;
    if ts != [] {
      assert ts[0] in ts && forall t | t in ts[1..] :: t in ts;
      PlainExpands(vars, w, ts[1..]);
    }
  }

  lemma {:induction false} NoRefs(ts: seq<Token>)
    requires Sound(ts) && FirstRef(Flat(ts)) == |Flat(ts)|
    ensures forall t | t in ts :: t.Plain?
  {
    forall t | t in ts
      ensures t.Plain?
    {
      if t.Ref? {
        HasRef(ts, t.name);
      }
    }
  }

  /** One turn of the loop keeps the meaning. */
  lemma RefExpands(vars: Variables, w: Weights, key: string, b: seq<Token>)
    requires Weighted(vars, w)
    ensures Expand(vars, w, [Ref(key)] + b) ==
            if key !in vars then Nonexistent(key)
            else Then(Expand(vars, w, Tokens(vars[key])), Expand(vars, w, b))
  {
    assert ([Ref(key)] + b)[1..] == b;
  }

  /** A reference means what its value means. */
  lemma ReplacedMeans(vars: Variables, w: Weights, a: seq<Token>, key: string, b: seq<Token>)
    requires Weighted(vars, w) && key in vars
    ensures Expand(vars, w, a + (Tokens(vars[key]) + b)) == Expand(vars, w, a + ([Ref(key)] + b))
  {
    hide Expand, Tokens, Weighted;
    ExpandConcat(vars, w, a, [Ref(key)] + b);
    RefExpands(vars, w, key, b);
    ExpandConcat(vars, w, a, Tokens(vars[key]) + b);
    ExpandConcat(vars, w, Tokens(vars[key]), b);
  }

  lemma StepKeepsMeaning(vars: Variables, w: Weights, ts: seq<Token>) returns (r: seq<Token>)
    requires WellFormed(vars) && Weighted(vars, w) && Sound(ts) && Strays(ts) == 0
    ensures var next := Step(vars, Flat(ts));
            if next.Going? then
              Flat(r) == next.text && Sound(r) && Strays(r) == 0 && Expand(vars, w, r) == Expand(vars, w, ts)
            else Expand(vars, w, ts) == next
  {
    hide IsRef, Flat, Tokens, Strays, Weighted, FirstRef, Sound;
    r := ts;
    if FirstRef(Flat(ts)) == |Flat(ts)| {
      NoRefs(ts);
      PlainExpands(vars, w, ts);
    } else {
      var p, q := FirstRefToken(ts);
      Measured(map[], ts, p, q);
      Cuts(ts, p, q);
      var a, b, key := ts[..p], ts[q..], ts[p].name;
      assert ts == a + ([Ref(key)] + b);
      hide Expand;
      if key !in vars {
        ExpandConcat(vars, w, a, [Ref(key)] + b);
        PlainExpands(vars, w, a);
        RefExpands(vars, w, key, b);
      } else {
        var new_ := Tokens(vars[key]);
        TokensFlatten(vars[key]);
        r := a + (new_ + b);
        ReplacedMeans(vars, w, a, key, b);
        FlatConcat(a, new_ + b);
        FlatConcat(new_, b);
        StraysConcat(a, new_ + b);
        StraysConcat(new_, b);
        assert Flat(r) == Flat(a) + vars[key] + Flat(b);
        assert r == ts[..p] + new_ + ts[q..];
        SoundParts(ts, p, new_, q);
      }
    }
  }

  lemma {:induction false} LoopKeepsMeaning(vars: Variables, w: Weights, ts: seq<Token>, n: nat)
    requires WellFormed(vars) && Weighted(vars, w) && Sound(ts) && Strays(ts) == 0
    ensures After(vars, Flat(ts), n).Going? || After(vars, Flat(ts), n) == Expand(vars, w, ts)
    decreases n
  {
    hide Step, Weighted;
    if n > 0 {
      var r := StepKeepsMeaning(vars, w, ts);
      if Step(vars, Flat(ts)).Going? {
        LoopKeepsMeaning(vars, w, r, n - 1);
      }
    }
  }

  /** A text whose '$' are all in complete references resolves to its meaning, or to the first
      name in it that no variable has. */
  lemma ResolvesToMeaning(vars: Variables, w: Weights, s: string, n: nat)
    requires WellFormed(vars) && Weighted(vars, w) && Strays(Tokens(s)) == 0
    ensures After(vars, s, n).Going? || After(vars, s, n) == Expand(vars, w, Tokens(s))
    ensures Ends(vars, s)
  {
    TokensFlatten(s);
    LoopKeepsMeaning(vars, w, Tokens(s), n);
    LoopEnds(vars, w, Tokens(s));
  }
}

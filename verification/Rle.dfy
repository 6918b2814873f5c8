// The run-length writer of the map exporter (maps/extensions/tileset_format.js).
// A run of three or more equal bytes is stored as its value and a two-byte count,
// shorter runs as they are. Nothing marks which of the two a byte belongs to.
module Rle {
  import opened Bytes
  import opened Options

  const MAX_RUN: nat := 65535

  datatype Token = Token(value: Byte, count: nat)

  /** The run a sequence begins with, as far as one token can hold it. */
  function RunLength(s: seq<Byte>): (r: nat)
    requires s != []
    ensures 1 <= r <= |s| && r <= MAX_RUN
  {
    Longest(s, 1)
  }

  function Longest(s: seq<Byte>, k: nat): (r: nat)
    requires 1 <= k <= |s| && k <= MAX_RUN && forall j :: 0 <= j < k ==> s[j] == s[0]
    ensures k <= r <= |s| && r <= MAX_RUN
    ensures forall j :: 0 <= j < r ==> s[j] == s[0]
    ensures r < |s| && r < MAX_RUN ==> s[r] != s[0]
    decreases |s| - k
  {
    if k < |s| && k < MAX_RUN && s[k] == s[0] then Longest(s, k + 1) else k
  }

  lemma RunMeans(s: seq<Byte>)
    requires s != []
    ensures var r := RunLength(s);
      && (forall k :: 0 <= k < r ==> s[k] == s[0])
      && (r < |s| && r < MAX_RUN ==> s[r] != s[0])
      && s == Repeat(s[0], r) + s[r..]
  {
  }

  function Tokens(s: seq<Byte>): seq<Token>
    decreases |s|
  {
    if s == [] then [] else [Token(s[0], RunLength(s))] + Tokens(s[RunLength(s)..])
  }

  function Repeat(value: Byte, count: nat): (r: seq<Byte>)
    ensures |r| == count && forall k :: 0 <= k < count ==> r[k] == value
  {
    seq<Byte>(count, _ => value)
  }

  function Expand(ts: seq<Token>): seq<Byte> {
    if ts == [] then [] else Repeat(ts[0].value, ts[0].count) + Expand(ts[1..])
  }

  function TokenWire(t: Token): seq<Byte> {
    if t.count >= 3 then [t.value, t.count % 256, (t.count / 256) % 256] else Repeat(t.value, t.count)
  }

  function Wire(ts: seq<Token>): seq<Byte> {
    if ts == [] then [] else TokenWire(ts[0]) + Wire(ts[1..])
  }

  /** Each token holds a run, and a run is cut only when one token is full. */
  ghost predicate Maximal(ts: seq<Token>) {
    && (forall k :: 0 <= k < |ts| ==> 1 <= ts[k].count <= MAX_RUN)
    && forall k :: 0 < k < |ts| && ts[k].value == ts[k - 1].value ==> ts[k - 1].count == MAX_RUN
  }

  // ------------------------------------------------- the decomposition

  lemma MaximalCons(t: Token, ts: seq<Token>)
    requires Maximal(ts) && 1 <= t.count <= MAX_RUN && (ts != [] && ts[0].value == t.value ==> t.count == MAX_RUN)
    ensures Maximal([t] + ts)
  {
    var all := [t] + ts;
    forall k | 0 < k < |all| && all[k].value == all[k - 1].value
      ensures all[k - 1].count == MAX_RUN
    {
      if k > 1 {
        assert ts[k - 1].value == ts[k - 2].value;
      }
    }
  }

  /** The value that may not follow a token. */
  function Barred(t: Token): Option<Byte> {
    if t.count == MAX_RUN then None else Some(t.value)
  }

  ghost predicate MayStart(barred: Option<Byte>, ts: seq<Token>) {
    ts != [] ==> barred != Some(ts[0].value)
  }

  lemma MaximalStep(ts: seq<Token>)
    requires ts != []
    ensures Maximal(ts) <==> 1 <= ts[0].count <= MAX_RUN && Maximal(ts[1..]) && MayStart(Barred(ts[0]), ts[1..])
  {
    var rest := ts[1..];
    assert ts == [ts[0]] + rest;
    if 1 <= ts[0].count <= MAX_RUN && Maximal(rest) && MayStart(Barred(ts[0]), rest) {
      MaximalCons(ts[0], rest);
    }
    if Maximal(ts) {
      assert forall k :: 0 <= k < |rest| ==> rest[k] == ts[k + 1];
      assert rest != [] ==> rest[0] == ts[1];
    }
  }

  lemma TokensStep(s: seq<Byte>)
    requires s != []
    ensures Tokens(s) == [Token(s[0], RunLength(s))] + Tokens(s[RunLength(s)..])
  {
    hide RunLength;
  }

  lemma ExpandCons(t: Token, ts: seq<Token>)
    ensures Expand([t] + ts) == Repeat(t.value, t.count) + Expand(ts)
  {
    assert ([t] + ts)[1..] == ts;
  }

  /** The decomposition expands back to the input and cuts runs only at the cap. */
  lemma {:induction false} TokensExpand(s: seq<Byte>)
    ensures Expand(Tokens(s)) == s && Maximal(Tokens(s))
    ensures s != [] ==> Tokens(s) != [] && Tokens(s)[0].value == s[0]
    decreases |s|
  {
    hide RunLength;
    if s != [] {
      hide Tokens, Expand, Maximal;
      var r := RunLength(s);
      var rest := s[r..];
      RunMeans(s);
      TokensStep(s);
      TokensExpand(rest);
      assert rest != [] ==> rest[0] == s[r];
      ExpandCons(Token(s[0], r), Tokens(rest));
      MaximalCons(Token(s[0], r), Tokens(rest));
    }
  }

  lemma RunIs(s: seq<Byte>, count: nat)
    requires 1 <= count <= MAX_RUN && count <= |s|
    requires forall k :: 0 <= k < count ==> s[k] == s[0]
    requires count == MAX_RUN || count == |s| || s[count] != s[0]
    ensures RunLength(s) == count
  {
    hide RunLength;
    RunMeans(s);
  }

  lemma FirstRun(ts: seq<Token>)
    requires Maximal(ts) && ts != []
    ensures Expand(ts) != [] && Expand(ts)[0] == ts[0].value && RunLength(Expand(ts)) == ts[0].count
  {
    var c, rest := ts[0].count, ts[1..];
    var run, s := Repeat(ts[0].value, c), Expand(ts);
    assert s == run + Expand(rest);
    assert forall k :: 0 <= k < c ==> s[k] == run[k] == ts[0].value;
    if rest == [] {
      assert |Expand(rest)| == 0;
    } else {
      var next := Repeat(rest[0].value, rest[0].count);
      assert Expand(rest) == next + Expand(rest[1..]);
      assert rest[0] == ts[1] && s[c] == Expand(rest)[0] == next[0];
    }
    RunIs(s, c);
  }

  /** It is the only such decomposition of its expansion. */
  lemma {:induction false} TokensUnique(ts: seq<Token>)
    requires Maximal(ts)
    ensures Tokens(Expand(ts)) == ts
    decreases |ts|
  {
    hide Maximal, RunLength;
    if ts != [] {
      hide Tokens;
      FirstRun(ts);
      MaximalStep(ts);
      TokensUnique(ts[1..]);
      assert Expand(ts)[ts[0].count..] == Expand(ts[1..]);
      TokensStep(Expand(ts));
      assert ts == [ts[0]] + ts[1..];
    }
  }

  // ----------------------------------------------------------- the writer

  /** The two count bytes give the count back, for every run a token can hold. */
  lemma CountFromBytes(t: Token)
    requires 3 <= t.count <= MAX_RUN
    ensures var w := TokenWire(t); |w| == 3 && w[0] == t.value && w[1] + w[2] as int * 256 == t.count
  {
  }

  lemma {:induction false} WireLength(ts: seq<Token>)
    ensures |Wire(ts)| <= |Expand(ts)|
    ensures |Wire(ts)| == |Expand(ts)| <==> forall t :: t in ts ==> t.count <= 3
    decreases |ts|
  {
    if ts != [] {
      WireLength(ts[1..]);
      assert forall t :: t in ts <==> t == ts[0] || t in ts[1..];
    }
  }

  /** Three equal bytes stand together somewhere. */
  ghost predicate HasTriple(s: seq<Byte>) {
    exists k :: TripleAt(s, k)
  }

  predicate TripleAt(s: seq<Byte>, k: nat) {
    k + 2 < |s| && s[k] == s[k + 1] == s[k + 2]
  }

  lemma OneToken(s: seq<Byte>, w: seq<Byte>)
    requires s != [] && |w| <= |s| - RunLength(s)
    ensures var r := RunLength(s); TokenWire(Token(s[0], r)) + w == s <==> r < 3 && w == s[r..]
  {
    hide RunLength;
    RunMeans(s);
    var r := RunLength(s);
    var out := TokenWire(Token(s[0], r)) + w;
    if r >= 3 {
      assert out[1] == r % 256 && out[2] == (r / 256) % 256 && s[1] == s[2];
    } else {
      assert out[r..] == w && out[..r] == s[..r] && s == s[..r] + s[r..];
    }
  }

  /** The output is never longer than the input, and is the input itself if and only
      if no three equal bytes stand together. */
  lemma {:induction false} WriterKeepsIff(s: seq<Byte>)
    ensures |Wire(Tokens(s))| <= |s|
    ensures Wire(Tokens(s)) == s <==> !HasTriple(s)
    decreases |s|
  {
    hide HasTriple, TokenWire;
    TokensExpand(s);
    WireLength(Tokens(s));
    if s == [] {
      NoTriple();
    } else {
      var rest := s[RunLength(s)..];
      WriterKeepsIff(rest);
      assert Tokens(s)[1..] == Tokens(rest);
      OneToken(s, Wire(Tokens(rest)));
      TripleSplits(s);
    }
  }

  lemma NoTriple()
    ensures !HasTriple([])
  {
  }

  lemma TripleInRest(s: seq<Byte>, r: nat)
    requires r <= |s|
    ensures HasTriple(s[r..]) ==> HasTriple(s)
  {
    if k :| TripleAt(s[r..], k) {
      assert TripleAt(s, r + k);
    }
  }

  lemma TripleSplits(s: seq<Byte>)
    requires s != []
    ensures HasTriple(s) <==> RunLength(s) >= 3 || HasTriple(s[RunLength(s)..])
  {
    hide RunLength;
    RunMeans(s);
    var r := RunLength(s);
    TripleInRest(s, r);
    if r >= 3 {
      assert TripleAt(s, 0);
    } else if k :| TripleAt(s, k) {
      assert TripleAt(s[r..], k - r);
    }
  }

  lemma {:induction false} WirePlus(a: seq<Token>, b: seq<Token>)
    ensures Wire(a + b) == Wire(a) + Wire(b)
    decreases |a|
  {
    if a == [] {
      assert a + b == b;
    } else {
      assert (a + b)[1..] == a[1..] + b;
      WirePlus(a[1..], b);
    }
  }

  // ------------------------------------- what the bytes alone do not tell

  lemma {:induction false} ExpandPlus(a: seq<Token>, b: seq<Token>)
    ensures Expand(a + b) == Expand(a) + Expand(b)
    decreases |a|
  {
    if a == [] {
      assert a + b == b;
    } else {
      assert (a + b)[1..] == a[1..] + b;
      ExpandPlus(a[1..], b);
    }
  }

  lemma {:induction false} LastToken(s: seq<Byte>)
    requires s != []
    ensures Tokens(s) != [] && Tokens(s)[|Tokens(s)| - 1].value == s[|s| - 1]
    decreases |s|
  {
    hide RunLength;
    var r := RunLength(s);
    RunMeans(s);
    if r < |s| {
      LastToken(s[r..]);
    } else {
      assert s[r..] == [];
    }
  }

  lemma MaximalPlus(a: seq<Token>, b: seq<Token>)
    requires Maximal(a) && Maximal(b)
    requires a != [] && b != [] && a[|a| - 1].value == b[0].value ==> a[|a| - 1].count == MAX_RUN
    ensures Maximal(a + b)
  {
    var all := a + b;
    forall k | 0 < k < |all| && all[k].value == all[k - 1].value
      ensures all[k - 1].count == MAX_RUN
    {
      if k > |a| {
        assert b[k - |a|] == all[k] && b[k - |a| - 1] == all[k - 1];
      }
    }
  }

  /** Where two bytes differ the input can be cut, and the output with it. */
  lemma Cut(a: seq<Byte>, b: seq<Byte>)
    requires a != [] && b != [] ==> a[|a| - 1] != b[0]
    ensures Wire(Tokens(a + b)) == Wire(Tokens(a)) + Wire(Tokens(b))
  {
    hide Tokens, Expand, Wire, Maximal;
    TokensExpand(a);
    TokensExpand(b);
    if a == [] || b == [] {
      NoTokens();
      assert a + b == if a == [] then b else a;
    } else {
      LastToken(a);
      MaximalPlus(Tokens(a), Tokens(b));
      ExpandPlus(Tokens(a), Tokens(b));
      TokensUnique(Tokens(a) + Tokens(b));
      WirePlus(Tokens(a), Tokens(b));
    }
  }

  /** The three bytes that stand for n times v. */
  function Counted(v: Byte, n: nat): seq<Byte>
    requires n <= MAX_RUN
  {
    [v, n % 256, n / 256]
  }

  lemma RunAlone(v: Byte, n: nat)
    requires 3 <= n <= MAX_RUN
    ensures Wire(Tokens(Repeat(v, n))) == Counted(v, n)
  {
    hide RunLength;
    var s := Repeat(v, n);
    RunIs(s, n);
    assert s[n..] == [];
    NoTokens();
    TokensStep(s);
    assert [Token(v, n)] + [] == [Token(v, n)];
    WireOne(Token(v, n));
  }

  /** A run and its own three bytes, taken as three single bytes, have one output, if
      and only if those three bytes are not themselves a run. */
  lemma RunSharesIff(v: Byte, n: nat)
    requires 3 <= n <= MAX_RUN
    ensures Repeat(v, n) != Counted(v, n)
    ensures Wire(Tokens(Repeat(v, n))) == Wire(Tokens(Counted(v, n))) <==> !(n % 256 == v && n / 256 == v)
  {
    RunAlone(v, n);
    var c := Counted(v, n);
    WriterKeepsIff(c);
    assert HasTriple(c) <==> TripleAt(c, 0);
    assert Repeat(v, n)[1] == Repeat(v, n)[2] == v;
  }

  /** The same wherever they stand, between bytes that continue neither. */
  lemma RunSharesAnywhere(before: seq<Byte>, v: Byte, n: nat, after: seq<Byte>)
    requires 3 <= n <= MAX_RUN && !(n % 256 == v && n / 256 == v)
    requires before == [] || before[|before| - 1] != v
    requires after == [] || (after[0] != v && after[0] != n / 256)
    ensures var s, t := before + Repeat(v, n) + after, before + Counted(v, n) + after;
      s != t && Wire(Tokens(s)) == Wire(Tokens(t))
  {
    hide Tokens, Wire;
    var run, c := Repeat(v, n), Counted(v, n);
    RunSharesIff(v, n);
    Cut(before, run);
    Cut(before + run, after);
    Cut(before, c);
    Cut(before + c, after);
    var s, t := before + run + after, before + c + after;
    var k := |before|;
    assert s[k + 1] == run[1] == v && s[k + 2] == run[2] == v;
    assert t[k + 1] == c[1] && t[k + 2] == c[2];
  }

  /** Inputs without a triple are told apart by their outputs; an input with one whose
      output has none shares its output with another input, that output itself. */
  lemma TriplesDecide(s: seq<Byte>, t: seq<Byte>)
    ensures !HasTriple(s) && !HasTriple(t) && Wire(Tokens(s)) == Wire(Tokens(t)) ==> s == t
    ensures var out := Wire(Tokens(s));
      HasTriple(s) && !HasTriple(out) ==> out != s && Wire(Tokens(out)) == out
  {
    hide HasTriple;
    WriterKeepsIff(s);
    WriterKeepsIff(t);
    WriterKeepsIff(Wire(Tokens(s)));
  }

  // --------------------- when an input without a triple shares its output

  ghost predicate OneOutput(s: seq<Byte>, t: seq<Byte>) {
    Wire(Tokens(s)) == Wire(Tokens(t))
  }

  /** The three bytes at k can be read as a run: their count is at least three, and the
      bytes around them do not continue it, unless a full run is cut there. */
  predicate ReadsAsRun(s: seq<Byte>, k: nat) {
    k + 2 < |s|
    && var n := s[k + 1] as int + s[k + 2] as int * 256;
       n >= 3 && (k > 0 ==> s[k - 1] != s[k]) && (k + 3 < |s| && s[k + 3] == s[k] ==> n == MAX_RUN)
  }

  lemma RunGivesTwin(s: seq<Byte>, k: nat) returns (t: seq<Byte>)
    requires !HasTriple(s) && ReadsAsRun(s, k)
    ensures t != s && Wire(Tokens(t)) == s
  {
    hide Tokens, Wire, Expand, HasTriple, Maximal;
    var v, n := s[k], s[k + 1] as int + s[k + 2] as int * 256;
    var before, after := s[..k], s[k + 3..];
    TripleInRest(s, k + 3);
    TripleInFront(s, k);
    WriterKeepsIff(before);
    WriterKeepsIff(after);
    var x, run, z := Tokens(before), [Token(v, n)], Tokens(after);
    TokensExpand(before);
    TokensExpand(after);
    OneRunMaximal(Token(v, n));
    LastOfTokens(before);
    LastOfTokens(after);
    MaximalPlus(x, run);
    assert (x + run)[|x + run| - 1] == run[0];
    assert after != [] ==> after[0] == s[k + 3];
    MaximalPlus(x + run, z);
    t := Expand(x + run + z);
    TokensUnique(x + run + z);
    WirePlus(x + run, z);
    WirePlus(x, run);
    WireOne(run[0]);
    assert Wire(run) == [v, s[k + 1], s[k + 2]];
    assert s == before + [v, s[k + 1], s[k + 2]] + after;
    RunIsTriple(before, Token(v, n), after, x, z);
  }

  lemma RunIsTriple(before: seq<Byte>, t: Token, after: seq<Byte>, x: seq<Token>, z: seq<Token>)
    requires Expand(x) == before && Expand(z) == after && t.count >= 3
    ensures HasTriple(Expand(x + [t] + z))
  {
    hide Expand;
    ExpandPlus(x + [t], z);
    ExpandPlus(x, [t]);
    ExpandOne(t);
    var run := Repeat(t.value, t.count);
    assert TripleAt(before + run + after, |before|);
  }

  lemma ExpandOne(t: Token)
    ensures Expand([t]) == Repeat(t.value, t.count)
  {
    assert [t][1..] == [] && Repeat(t.value, t.count) + [] == Repeat(t.value, t.count);
  }

  lemma OneRunMaximal(t: Token)
    requires 1 <= t.count <= MAX_RUN
    ensures Maximal([t])
  {
  }

  lemma LastOfTokens(s: seq<Byte>)
    ensures s != [] ==> Tokens(s) != [] && Tokens(s)[|Tokens(s)| - 1].value == s[|s| - 1]
    ensures s == [] ==> Tokens(s) == []
  {
    if s != [] {
      LastToken(s);
    }
  }

  lemma TripleInFront(s: seq<Byte>, k: nat)
    requires k <= |s| && !HasTriple(s)
    ensures !HasTriple(s[..k])
  {
    if j :| TripleAt(s[..k], j) {
      assert TripleAt(s, j);
    }
  }

  /** Tokens of at most two bytes each are written as they are. */
  lemma {:induction false} ShortTokens(ts: seq<Token>)
    requires forall t :: t in ts ==> t.count < 3
    ensures Wire(ts) == Expand(ts)
    decreases |ts|
  {
    if ts != [] {
      assert forall t :: t in ts[1..] ==> t in ts;
      ShortTokens(ts[1..]);
    }
  }

  /** The first token of three bytes or more. */
  lemma {:induction false} FirstRunToken(ts: seq<Token>) returns (i: nat)
    requires exists t :: t in ts && t.count >= 3
    ensures i < |ts| && ts[i].count >= 3 && forall j :: 0 <= j < i ==> ts[j].count < 3
    decreases |ts|
  {
    if ts[0].count >= 3 {
      i := 0;
    } else {
      i := FirstRunToken(ts[1..]);
      i := i + 1;
    }
  }

  lemma WireAround(x: seq<Token>, run: Token, z: seq<Token>)
    ensures Wire(x + [run] + z) == Wire(x) + TokenWire(run) + Wire(z)
  {
    hide Wire, TokenWire;
    WirePlus(x + [run], z);
    WirePlus(x, [run]);
    WireOne(run);
  }

  lemma Around(a: seq<Byte>, w: seq<Byte>, b: seq<Byte>)
    requires |w| == 3
    ensures var s, k := a + w + b, |a|;
      && s[k] == w[0] && s[k + 1] == w[1] && s[k + 2] == w[2]
      && (k > 0 ==> s[k - 1] == a[k - 1]) && (k + 3 < |s| ==> b != [] && s[k + 3] == b[0])
  {
  }

  lemma Neighbours(ts: seq<Token>, i: nat)
    requires Maximal(ts) && i < |ts|
    ensures 1 <= ts[i].count <= MAX_RUN
    ensures i > 0 && ts[i - 1].count < 3 ==> ts[i - 1].value != ts[i].value
    ensures i + 1 < |ts| && ts[i + 1].value == ts[i].value ==> ts[i].count == MAX_RUN
    ensures forall t :: t in ts ==> t.count >= 1
  {
  }

  lemma TwinGivesRun(s: seq<Byte>, t: seq<Byte>) returns (k: nat)
    requires !HasTriple(s) && t != s && Wire(Tokens(t)) == s
    ensures ReadsAsRun(s, k)
  {
    hide Tokens, Wire, Expand, HasTriple, Maximal;
    TokensExpand(t);
    var ts := Tokens(t);
    if forall u :: u in ts ==> u.count < 3 {
      ShortTokens(ts);
      assert false;
    }
    var i := FirstRunToken(ts);
    var x, run, z := ts[..i], ts[i], ts[i + 1..];
    assert ts == x + [run] + z;
    Neighbours(ts, i);
    WireAround(x, run, z);
    ShortTokens(x);
    Around(Expand(x), TokenWire(run), Wire(z));
    k := |Expand(x)|;
    if k > 0 {
      LastExpanded(x);
    }
    if k + 3 < |s| {
      FirstWritten(z);
    }
  }

  lemma {:induction false} LastExpanded(ts: seq<Token>)
    requires Expand(ts) != [] && forall t :: t in ts ==> t.count >= 1
    ensures ts != [] && Expand(ts)[|Expand(ts)| - 1] == ts[|ts| - 1].value
    decreases |ts|
  {
    var rest := ts[1..];
    assert forall t :: t in rest ==> t in ts;
    if rest == [] {
      assert Expand(rest) == [];
    } else {
      assert Expand(rest) == Repeat(rest[0].value, rest[0].count) + Expand(rest[1..]);
      LastExpanded(rest);
    }
  }

  lemma FirstWritten(ts: seq<Token>)
    requires Wire(ts) != [] && forall t :: t in ts ==> t.count >= 1
    ensures ts != [] && Wire(ts)[0] == ts[0].value
  {
  }

  /** An input without a triple shares its output with another input if and only if
      some three bytes of it can be read as a run. */
  lemma SharesIff(s: seq<Byte>)
    requires !HasTriple(s)
    ensures (exists t :: t != s && OneOutput(s, t)) <==> exists k :: ReadsAsRun(s, k)
  {
    hide Tokens, Wire, HasTriple, ReadsAsRun;
    WriterKeepsIff(s);
    if t :| t != s && OneOutput(s, t) {
      var k := TwinGivesRun(s, t);
    }
    if k :| ReadsAsRun(s, k) {
      var t := RunGivesTwin(s, k);
      assert OneOutput(s, t);
    }
  }

  // ------------------------- which inputs have a given output, and how many

  predicate PairLeads(w: seq<Byte>) {
    |w| >= 2 && w[1] == w[0]
  }

  predicate RunLeads(w: seq<Byte>) {
    |w| >= 3 && CountIn(w) >= 3
  }

  function CountIn(w: seq<Byte>): nat
    requires |w| >= 3
  {
    w[1] as int + w[2] as int * 256
  }

  /** In how many ways bytes can be read as tokens, none of the barred value first. */
  function Ways(w: seq<Byte>, barred: Option<Byte>): nat
    decreases |w|
  {
    if w == [] then 1
    else if barred == Some(w[0]) then 0
    else
      Ways(w[1..], Some(w[0]))
      + (if PairLeads(w) then Ways(w[2..], Some(w[0])) else 0)
      + (if RunLeads(w) then Ways(w[3..], Barred(Token(w[0], CountIn(w)))) else 0)
  }

  /** Those readings themselves. */
  function Readings(w: seq<Byte>, barred: Option<Byte>): set<seq<Token>>
    decreases |w|
  {
    if w == [] then {[]}
    else if barred == Some(w[0]) then {}
    else
      Led(Token(w[0], 1), Readings(w[1..], Some(w[0])))
      + (if PairLeads(w) then Led(Token(w[0], 2), Readings(w[2..], Some(w[0]))) else {})
      + (if RunLeads(w) then Led(Token(w[0], CountIn(w)), Readings(w[3..], Barred(Token(w[0], CountIn(w))))) else {})
  }

  function Led(t: Token, rest: set<seq<Token>>): set<seq<Token>> {
    set ts | ts in rest :: [t] + ts
  }

  lemma InLed(t: Token, rest: set<seq<Token>>, ts: seq<Token>)
    ensures ts in Led(t, rest) <==> ts != [] && ts[0] == t && ts[1..] in rest
  {
    if ts in Led(t, rest) {
      var r :| r in rest && ts == [t] + r;
      assert ts[1..] == r;
    }
    if ts != [] && ts[0] == t && ts[1..] in rest {
      assert ts == [t] + ts[1..];
    }
  }

  lemma {:induction false} LedSize(t: Token, rest: set<seq<Token>>)
    ensures |Led(t, rest)| == |rest|
    decreases |rest|
  {
    if r :| r in rest {
      var fewer := rest - {r};
      LedSize(t, fewer);
      assert Led(t, rest) == Led(t, fewer) + {[t] + r};
      InLed(t, fewer, [t] + r);
      assert ([t] + r)[1..] == r;
    } else {
      assert Led(t, rest) == {};
    }
  }

  /** Bytes begin with what a token writes. */
  predicate Begins(t: Token, w: seq<Byte>) {
    1 <= t.count <= MAX_RUN && TokenWire(t) <= w
  }

  lemma BeginsMeans(t: Token, w: seq<Byte>)
    requires w != []
    ensures Begins(t, w) <==>
      && t.value == w[0]
      && (t.count == 1 || (t.count == 2 && PairLeads(w)) || (t.count >= 3 && RunLeads(w) && t.count == CountIn(w)))
    ensures Begins(t, w) ==> |TokenWire(t)| == if t.count < 3 then t.count else 3
  {
    var k := |TokenWire(t)|;
    if Begins(t, w) {
      assert forall j :: 0 <= j < k ==> w[j] == TokenWire(t)[j];
    }
    if t.count == 1 {
      assert w[..1] == [w[0]];
    } else if |w| >= 2 && t.count == 2 {
      assert w[..2] == [w[0], w[1]];
    } else if |w| >= 3 {
      assert w[..3] == [w[0], w[1], w[2]];
    }
  }

  lemma InReadings(w: seq<Byte>, barred: Option<Byte>, ts: seq<Token>)
    requires w != []
    ensures ts in Readings(w, barred) <==>
      && ts != [] && barred != Some(w[0]) && Begins(ts[0], w)
      && ts[1..] in Readings(w[|TokenWire(ts[0])|..], Barred(ts[0]))
  {
    hide Led, Begins, TokenWire, PairLeads, RunLeads, CountIn;
    if ts != [] {
      BeginsMeans(ts[0], w);
    }
    InLed(Token(w[0], 1), Readings(w[1..], Some(w[0])), ts);
    if PairLeads(w) {
      PairFits(w);
      InLed(Token(w[0], 2), Readings(w[2..], Some(w[0])), ts);
    }
    if RunLeads(w) {
      RunFits(w);
      var t := Token(w[0], CountIn(w));
      InLed(t, Readings(w[3..], Barred(t)), ts);
    }
  }

  lemma PairFits(w: seq<Byte>)
    requires PairLeads(w)
    ensures |w| >= 2
  {
  }

  lemma RunFits(w: seq<Byte>)
    requires RunLeads(w)
    ensures |w| >= 3 && 3 <= CountIn(w) <= MAX_RUN
  {
  }

  lemma WireStep(ts: seq<Token>, w: seq<Byte>)
    requires ts != []
    ensures Wire(ts) == w <==> TokenWire(ts[0]) <= w && Wire(ts[1..]) == w[|TokenWire(ts[0])|..]
  {
    hide TokenWire;
    var a, b := TokenWire(ts[0]), Wire(ts[1..]);
    assert (a + b)[|a|..] == b;
    if a <= w {
      assert w == a + w[|a|..];
    }
  }

  /** The readings of some bytes are the decompositions written as those bytes. */
  lemma {:induction false} ReadingIff(w: seq<Byte>, barred: Option<Byte>, ts: seq<Token>)
    ensures ts in Readings(w, barred) <==> Maximal(ts) && MayStart(barred, ts) && Wire(ts) == w
    decreases |ts|
  {
    hide Maximal, TokenWire, Barred;
    if ts == [] {
      MaximalNone();
      if w != [] {
        InReadings(w, barred, ts);
      }
    } else {
      hide Readings, Wire;
      MaximalStep(ts);
      WireStep(ts, w);
      if w == [] {
        EmptyReads(barred, ts);
      } else {
        InReadings(w, barred, ts);
        if Begins(ts[0], w) {
          BeginsMeans(ts[0], w);
          ReadingIff(w[|TokenWire(ts[0])|..], Barred(ts[0]), ts[1..]);
        }
      }
    }
  }

  lemma MaximalNone()
    ensures Maximal([])
  {
  }

  lemma EmptyReads(barred: Option<Byte>, ts: seq<Token>)
    requires ts != []
    ensures ts !in Readings([], barred)
    ensures 1 <= ts[0].count ==> !(TokenWire(ts[0]) <= [])
  {
  }

  lemma {:induction false} WaysCount(w: seq<Byte>, barred: Option<Byte>)
    ensures |Readings(w, barred)| == Ways(w, barred)
    decreases |w|
  {
    hide Led, PairLeads, RunLeads, CountIn;
    if w != [] && barred != Some(w[0]) {
      var v := w[0];
      var one := Readings(w[1..], Some(v));
      var a := Led(Token(v, 1), one);
      WaysCount(w[1..], Some(v));
      LedSize(Token(v, 1), one);
      var b, c := {}, {};
      if PairLeads(w) {
        PairFits(w);
        b := Led(Token(v, 2), Readings(w[2..], Some(v)));
        WaysCount(w[2..], Some(v));
        LedSize(Token(v, 2), Readings(w[2..], Some(v)));
        LedApart(Token(v, 1), one, Token(v, 2), Readings(w[2..], Some(v)));
      }
      if RunLeads(w) {
        RunFits(w);
        var t := Token(v, CountIn(w));
        var rest := Readings(w[3..], Barred(t));
        c := Led(t, rest);
        WaysCount(w[3..], Barred(t));
        LedSize(t, rest);
        LedApart(Token(v, 1), one, t, rest);
        if PairLeads(w) {
          LedApart(Token(v, 2), Readings(w[2..], Some(v)), t, rest);
        }
      }
      assert a !! b && (a + b) !! c;
      assert |a + b + c| == |a| + |b| + |c|;
      assert Readings(w, barred) == a + b + c;
    }
  }

  lemma LedApart(t: Token, a: set<seq<Token>>, u: Token, b: set<seq<Token>>)
    requires t != u
    ensures Led(t, a) !! Led(u, b)
  {
    forall ts ensures !(ts in Led(t, a) && ts in Led(u, b)) {
      InLed(t, a, ts);
      InLed(u, b, ts);
    }
  }

  /** All inputs with a given output. */
  function InputsOf(w: seq<Byte>): set<seq<Byte>> {
    Expanded(Readings(w, None))
  }

  function Expanded(readings: set<seq<Token>>): set<seq<Byte>> {
    set ts | ts in readings :: Expand(ts)
  }

  lemma InputsAre(w: seq<Byte>, s: seq<Byte>)
    ensures s in InputsOf(w) <==> Wire(Tokens(s)) == w
  {
    hide Readings, Maximal, Wire, Expand, Tokens;
    TokensExpand(s);
    ReadingIff(w, None, Tokens(s));
    if s in InputsOf(w) {
      var ts :| ts in Readings(w, None) && s == Expand(ts);
      ReadingIff(w, None, ts);
      TokensUnique(ts);
    }
  }

  lemma {:induction false} ExpandedSize(readings: set<seq<Token>>)
    requires forall ts :: ts in readings ==> Maximal(ts)
    ensures |Expanded(readings)| == |readings|
    decreases |readings|
  {
    hide Maximal, Expand;
    if r :| r in readings {
      var fewer := readings - {r};
      ExpandedSize(fewer);
      if Expand(r) in Expanded(fewer) {
        var other :| other in fewer && Expand(other) == Expand(r);
        TokensUnique(r);
        TokensUnique(other);
      }
      assert readings == fewer + {r};
      assert Expanded(readings) == Expanded(fewer) + {Expand(r)};
    } else {
      assert Expanded(readings) == {};
    }
  }

  /** A given output has exactly as many inputs as there are ways to read it. */
  lemma HowManyInputs(w: seq<Byte>)
    ensures forall s :: s in InputsOf(w) <==> Wire(Tokens(s)) == w
    ensures |InputsOf(w)| == Ways(w, None)
  {
    hide Readings, Ways, Maximal, Wire, Tokens;
    forall s {
      InputsAre(w, s);
    }
    forall ts | ts in Readings(w, None)
      ensures Maximal(ts)
    {
      ReadingIff(w, None, ts);
    }
    ExpandedSize(Readings(w, None));
    WaysCount(w, None);
  }

  /** Any input shares its output with another one if and only if its output can be
      read in more than one way. */
  lemma AnyInputSharesIff(s: seq<Byte>)
    ensures (exists t :: t != s && OneOutput(s, t)) <==> Ways(Wire(Tokens(s)), None) > 1
  {
    hide Ways, InputsOf, Wire, Tokens;
    var w := Wire(Tokens(s));
    HowManyInputs(w);
    MoreThanOne(InputsOf(w), s);
    assert forall t :: OneOutput(s, t) <==> t in InputsOf(w);
  }

  lemma MoreThanOne<T>(xs: set<T>, x: T)
    requires x in xs
    ensures |xs| > 1 <==> exists y :: y != x && y in xs
  {
    var others := xs - {x};
    assert |xs| == |others| + 1;
    if y :| y in others {
      assert y in xs;
    }
    if y :| y != x && y in xs {
      assert y in others;
    }
  }

  lemma WireOne(t: Token)
    ensures Wire([t]) == TokenWire(t)
  {
    assert [t][1..] == [];
  }

  lemma Advance(input: seq<Byte>, i: nat, done: seq<Token>, count: nat)
    requires i < |input| && Tokens(input) == done + Tokens(input[i..])
    requires 1 <= count <= MAX_RUN && i + count <= |input|
    requires forall k :: i <= k < i + count ==> input[k] == input[i]
    requires count == MAX_RUN || i + count == |input| || input[i + count] != input[i]
    ensures var t := Token(input[i], count);
      && Tokens(input) == done + [t] + Tokens(input[i + count..])
      && Wire(done + [t]) == Wire(done) + TokenWire(t)
  {
    hide Tokens, Wire, RunLength, TokenWire;
    var s, t := input[i..], Token(input[i], count);
    RunIs(s, count);
    TokensStep(s);
    assert s[count..] == input[i + count..];
    WirePlus(done, [t]);
    WireOne(t);
  }

  /** Scans the buffer run by run. */
  method ConstructRLE(input: seq<Byte>) returns (compressed: seq<Byte>)
    ensures compressed == Wire(Tokens(input))
  {
    hide Tokens, Wire, RunLength;
    compressed := [];
    ghost var done: seq<Token> := [];
    NoTokens();
    var i := 0;
    while i < |input|
      invariant i <= |input| && Tokens(input) == done + Tokens(input[i..]) && compressed == Wire(done)
    {
      var value, count := input[i], 1;
      while i + count < |input| && input[i + count] == value && count < MAX_RUN
        invariant 1 <= count <= MAX_RUN && i + count <= |input|
        invariant forall k :: i <= k < i + count ==> input[k] == value
      {
        count := count + 1;
      }
      if count >= 3 {
        compressed := compressed + [value, count % 256, (count / 256) % 256];
      } else {
        for j := 0 to count
          invariant compressed == Wire(done) + Repeat(value, j)
        {
          compressed := compressed + [value];
        }
      }
      Advance(input, i, done, count);
      done := done + [Token(value, count)];
      i := i + count;
    }
    assert input[i..] == [] && done + [] == done;
  }

  lemma NoTokens()
    ensures Tokens([]) == [] && Wire([]) == []
  {
  }
}

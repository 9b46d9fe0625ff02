/** FormatSSPluginOptions (internal/core/sip003.go): SS_PLUGIN_OPTIONS to command-line tokens. */
module PluginOptions {

  datatype Result = Ok(tokens: seq<string>) | Invalid(segment: string)

  function Count(s: string, c: char): nat {
    if s == "" then 0 else (if s[0] == c then 1 else 0) + Count(s[1..], c)
  }

  /** Go's strings.Split for a one-character separator. */
  function Split(s: string, sep: char): (parts: seq<string>)
    ensures |parts| == Count(s, sep) + 1
  {
    if s == "" then [""]
    else
      var rest := Split(s[1..], sep);
      if s[0] == sep then [""] + rest else [[s[0]] + rest[0]] + rest[1..]
  }

  function Join(parts: seq<string>, sep: char): string
    requires parts != []
  {
    if |parts| == 1 then parts[0] else parts[0] + [sep] + Join(parts[1..], sep)
  }

  lemma {:induction false} JoinSplit(s: string, sep: char)
    ensures Join(Split(s, sep), sep) == s
  {
    if s != "" {
      JoinSplit(s[1..], sep);
      var rest := Split(s[1..], sep);
      var parts := Split(s, sep);
      if s[0] == sep {
        assert parts[1..] == rest;
      } else {
        assert parts[1..] == rest[1..];
        if |rest| > 1 {
          assert Join(parts, sep) == [s[0]] + (rest[0] + [sep] + Join(rest[1..], sep));
        }
      }
      assert s == [s[0]] + s[1..];
    }
  }

  /** With JoinSplit this fixes Split: the parts are free of the separator and join to the string. */
  lemma {:induction false} SplitParts(s: string, sep: char)
    ensures forall p :: p in Split(s, sep) ==> Count(p, sep) == 0
  {
    if s != "" {
      SplitParts(s[1..], sep);
      var rest := Split(s[1..], sep);
      if s[0] != sep {
        assert ([s[0]] + rest[0])[1..] == rest[0];
      }
    }
  }

  /** The tokens of one accepted segment: `-key`, or `-key` and `value`. */
  function SegmentTokens(segment: string): seq<string> {
    var pair := Split(segment, '=');
    if |pair| == 1 then ["-" + pair[0]] else ["-" + pair[0], pair[1]]
  }

  function Tokens(segments: seq<string>): seq<string> {
    if segments == [] then [] else SegmentTokens(segments[0]) + Tokens(segments[1..])
  }

  /** What the formatter makes of the segments: their tokens, unless one of them has two or more '='. */
  function Format(segments: seq<string>): Result {
    if segments == [] then Ok([])
    else if Count(segments[0], '=') > 1 then Invalid(segments[0])
    else Before(SegmentTokens(segments[0]), Format(segments[1..]))
  }

  function Before(tokens: seq<string>, r: Result): Result {
    if r.Ok? then Ok(tokens + r.tokens) else r
  }

  predicate OneEquals(segments: seq<string>) {
    forall s :: s in segments ==> Count(s, '=') <= 1
  }

  lemma OneEqualsRest(segments: seq<string>)
    requires segments != []
    ensures OneEquals(segments) <==> Count(segments[0], '=') <= 1 && OneEquals(segments[1..])
  {
    assert segments[0] in segments;
    assert forall x :: x in segments <==> x == segments[0] || x in segments[1..];
  }

  lemma {:induction false} FormatSucceeds(segments: seq<string>)
    ensures Format(segments).Ok? <==> OneEquals(segments)
    ensures Format(segments).Ok? ==> Format(segments).tokens == Tokens(segments)
  {
    if segments != [] {
      OneEqualsRest(segments);
      FormatSucceeds(segments[1..]);
    }
  }

  /** The segment at index i is refused, and none before it. */
  ghost predicate FirstRefused(segments: seq<string>, i: nat) {
    i < |segments| && Count(segments[i], '=') > 1 && forall j :: 0 <= j < i ==> Count(segments[j], '=') <= 1
  }

  lemma {:induction false} FormatReports(segments: seq<string>) returns (i: nat)
    requires Format(segments).Invalid?
    ensures FirstRefused(segments, i) && Format(segments) == Invalid(segments[i])
  {
    if Count(segments[0], '=') > 1 {
      i := 0;
    } else {
      var k := FormatReports(segments[1..]);
      i := k + 1;
      forall j | 0 <= j < i
        ensures Count(segments[j], '=') <= 1
      {
        if j > 0 { assert segments[j] == segments[1..][j - 1]; }
      }
    }
  }

  /** One round of the formatter's loop. */
  lemma FormatRound(op: seq<string>, i: nat, tokens: seq<string>)
    requires i < |op| && Count(op[i], '=') <= 1
    ensures Before(tokens, Format(op[i..])) == Before(tokens + SegmentTokens(op[i]), Format(op[i + 1..]))
  {
    assert op[i..][1..] == op[i + 1..];
    var rest := Format(op[i + 1..]);
    if rest.Ok? {
      assert tokens + (SegmentTokens(op[i]) + rest.tokens) == tokens + SegmentTokens(op[i]) + rest.tokens;
    }
  }

  /** The formatter.  It fails on the first segment with two or more '='. */
  method FormatSSPluginOptions(spo: string) returns (r: Result)
    ensures r == Format(Split(spo, ';'))
    ensures r.Ok? <==> forall s :: s in Split(spo, ';') ==> Count(s, '=') <= 1
    ensures r.Ok? ==> r.tokens == Tokens(Split(spo, ';'))
    ensures r.Invalid? ==> exists i: nat :: FirstRefused(Split(spo, ';'), i) && r.segment == Split(spo, ';')[i]
  {
    var commandLineOption: seq<string> := [];
    var op := Split(spo, ';');
    FormatSucceeds(op);
    assert op[0..] == op && Before([], Format(op)) == Format(op);
    for i := 0 to |op|
      invariant Before(commandLineOption, Format(op[i..])) == Format(op)
    {
      var optionPair := Split(op[i], '=');
      if |optionPair| == 1 {
        FormatRound(op, i, commandLineOption);
        commandLineOption := commandLineOption + ["-" + optionPair[0]];
      } else if |optionPair| == 2 {
        FormatRound(op, i, commandLineOption);
        commandLineOption := commandLineOption + ["-" + optionPair[0], optionPair[1]];
      } else {
        ghost var k := FormatReports(op);
        return Invalid(op[i]);
      }
    }
    return Ok(commandLineOption);
  }

  // ---- the number of tokens ------------------------------------------------------------------

  function CountAll(parts: seq<string>, c: char): nat {
    if parts == [] then 0 else Count(parts[0], c) + CountAll(parts[1..], c)
  }

  lemma {:induction false} CountSplit(s: string, sep: char, c: char)
    requires c != sep
    ensures CountAll(Split(s, sep), c) == Count(s, c)
  {
    if s != "" {
      CountSplit(s[1..], sep, c);
      var rest := Split(s[1..], sep);
      if s[0] == sep {
        assert Split(s, sep)[1..] == rest;
      } else {
        assert Split(s, sep)[1..] == rest[1..];
        assert ([s[0]] + rest[0])[1..] == rest[0];
      }
    }
  }

  lemma {:induction false} TokenCountOf(segments: seq<string>)
    requires forall s :: s in segments ==> Count(s, '=') <= 1
    ensures |Tokens(segments)| == |segments| + CountAll(segments, '=')
  {
    if segments != [] {
      assert segments[0] in segments;
      TokenCountOf(segments[1..]);
    }
  }

  /** An accepted string yields one token a segment and one more for each '='. */
  lemma TokenCount(spo: string)
    requires forall s :: s in Split(spo, ';') ==> Count(s, '=') <= 1
    ensures |Tokens(Split(spo, ';'))| == 1 + Count(spo, ';') + Count(spo, '=')
  {
    TokenCountOf(Split(spo, ';'));
    CountSplit(spo, ';', '=');
  }

  // ---- the inverse ---------------------------------------------------------------------------

  predicate Dashed(token: string) {
    token != "" && token[0] == '-'
  }

  /** Regroups a command line: a dashed token starts an option, a token without a dash is the value
      of the option before it. */
  function Regroup(tokens: seq<string>): seq<string> {
    if tokens == [] || tokens[0] == "" then []
    else if |tokens| > 1 && !Dashed(tokens[1]) then [tokens[0][1..] + "=" + tokens[1]] + Regroup(tokens[2..])
    else [tokens[0][1..]] + Regroup(tokens[1..])
  }

  predicate HasDashedValue(segment: string) {
    var pair := Split(segment, '=');
    |pair| == 2 && Dashed(pair[1])
  }

  /** The number of segments whose value starts with '-', the ones that look like an option afterwards. */
  function DashedValues(segments: seq<string>): nat {
    if segments == [] then 0
    else
      (if HasDashedValue(segments[0]) then 1 else 0) + DashedValues(segments[1..])
  }

  function Length(segments: seq<string>): nat {
    if segments == [] then 0 else |segments[0]| + 1 + Length(segments[1..])
  }

  lemma {:induction false} JoinLength(parts: seq<string>, sep: char)
    requires parts != []
    ensures |Join(parts, sep)| + 1 == Length(parts)
  {
    if |parts| == 1 {
      assert Length(parts[1..]) == 0;
    } else {
      JoinLength(parts[1..], sep);
    }
  }

  lemma PairJoins(segment: string)
    requires Count(segment, '=') <= 1
    ensures var pair := Split(segment, '=');
            segment == if |pair| == 1 then pair[0] else pair[0] + "=" + pair[1]
  {
    JoinSplit(segment, '=');
    var pair := Split(segment, '=');
    if |pair| == 2 {
      assert pair[1..] == [pair[1]];
    }
  }

  lemma {:induction false} TokensStartDashed(segments: seq<string>)
    requires segments != []
    ensures Tokens(segments) != [] && Dashed(Tokens(segments)[0])
    ensures Tokens(segments)[0] != ""
  {
  }

  /** What regrouping makes of the tokens of one segment: the segment, or, when its value starts
      with '-', the key and the rest of the value as two segments. */
  function Regained(segment: string): seq<string> {
    var pair := Split(segment, '=');
    if HasDashedValue(segment) then [pair[0], pair[1][1..]] else [segment]
  }

  lemma RegroupLone(key: string, tail: seq<string>)
    requires tail != [] ==> Dashed(tail[0])
    ensures Regroup(["-" + key] + tail) == [key] + Regroup(tail)
  {
    assert (["-" + key] + tail)[1..] == tail && ("-" + key)[1..] == key;
  }

  lemma RegroupPair(key: string, value: string, tail: seq<string>)
    requires !Dashed(value)
    ensures Regroup(["-" + key, value] + tail) == [key + "=" + value] + Regroup(tail)
  {
    assert (["-" + key, value] + tail)[2..] == tail && ("-" + key)[1..] == key;
  }

  lemma TwoFirst(a: string, b: string, tail: seq<string>)
    ensures [a, b] + tail == [a] + ([b] + tail)
  {
  }

  lemma RegroupSplitPair(key: string, value: string, tail: seq<string>)
    requires Dashed(value)
    requires tail != [] ==> Dashed(tail[0])
    ensures Regroup(["-" + key, value] + tail) == [key, value[1..]] + Regroup(tail)
  {
    var rest := value[1..];
    assert value == "-" + rest;
    RegroupLone(rest, tail);
    RegroupLone(key, [value] + tail);
    TwoFirst("-" + key, value, tail);
    TwoFirst(key, rest, Regroup(tail));
  }

  lemma RegroupSegment(s: string, tail: seq<string>)
    requires Count(s, '=') <= 1
    requires tail != [] ==> Dashed(tail[0])
    ensures Regroup(SegmentTokens(s) + tail) == Regained(s) + Regroup(tail)
  {
    PairJoins(s);
    var pair := Split(s, '=');
    if |pair| == 1 {
      assert SegmentTokens(s) == ["-" + s] && Regained(s) == [s];
      RegroupLone(s, tail);
    } else {
      assert SegmentTokens(s) == ["-" + pair[0], pair[1]];
      if Dashed(pair[1]) {
        RegroupSplitPair(pair[0], pair[1], tail);
      } else {
        RegroupPair(pair[0], pair[1], tail);
      }
    }
  }

  lemma RegainedLength(s: string, rest: seq<string>)
    requires Count(s, '=') <= 1
    ensures Length(Regained(s) + rest) + (if HasDashedValue(s) then 1 else 0) == |s| + 1 + Length(rest)
  {
    PairJoins(s);
    var pair := Split(s, '=');
    if HasDashedValue(s) {
      var inner := [pair[1][1..]] + rest;
      assert Regained(s) + rest == [pair[0]] + inner;
      assert ([pair[0]] + inner)[1..] == inner && inner[1..] == rest;
    } else {
      assert ([s] + rest)[1..] == rest;
    }
  }

  /** Each dashed value costs the regrouped command line one character; without one nothing is lost. */
  lemma {:induction false} RegroupTokens(segments: seq<string>)
    requires forall s :: s in segments ==> Count(s, '=') <= 1
    ensures Length(Regroup(Tokens(segments))) + DashedValues(segments) == Length(segments)
    ensures DashedValues(segments) == 0 ==> Regroup(Tokens(segments)) == segments
    ensures segments != [] ==> Regroup(Tokens(segments)) != []
  {
    if segments != [] {
      var s, rest := segments[0], segments[1..];
      assert s in segments;
      RegroupTokens(rest);
      if rest != [] { TokensStartDashed(rest); }
      RegroupSegment(s, Tokens(rest));
      RegainedLength(s, Regroup(Tokens(rest)));
      assert segments == [s] + rest;
    }
  }

  /** Regrouping and re-joining the tokens of an accepted string gives the string back exactly when
      none of its values starts with '-'. */
  lemma FormatInvertible(spo: string)
    requires forall s :: s in Split(spo, ';') ==> Count(s, '=') <= 1
    ensures Regroup(Tokens(Split(spo, ';'))) != []
    ensures Join(Regroup(Tokens(Split(spo, ';'))), ';') == spo
            <==> forall s :: s in Split(spo, ';') ==> !HasDashedValue(s)
  {
    var segments := Split(spo, ';');
    JoinSplit(spo, ';');
    RegroupTokens(segments);
    JoinLength(segments, ';');
    JoinLength(Regroup(Tokens(segments)), ';');
    NoDashedValues(segments);
  }

  lemma {:induction false} NoDashedValues(segments: seq<string>)
    ensures DashedValues(segments) == 0
            <==> forall s :: s in segments ==> !HasDashedValue(s)
  {
    if segments != [] {
      NoDashedValues(segments[1..]);
      assert segments[0] in segments;
      assert forall s :: s in segments <==> s == segments[0] || s in segments[1..];
    }
  }

  lemma {:induction false} SplitSeparated(a: string, b: string, sep: char)
    requires Count(a, sep) == 0
    ensures Split(a + [sep] + b, sep) == [a] + Split(b, sep)
  {
    var s := a + [sep] + b;
    if a == "" {
      assert s[1..] == b;
    } else {
      assert s[1..] == a[1..] + [sep] + b;
      SplitSeparated(a[1..], b, sep);
      assert a == [a[0]] + a[1..];
    }
  }

  lemma {:induction false} SplitWhole(a: string, sep: char)
    requires Count(a, sep) == 0
    ensures Split(a, sep) == [a]
  {
    if a != "" {
      SplitWhole(a[1..], sep);
      assert a == [a[0]] + a[1..];
    }
  }

  lemma {:induction false} CountAppend(a: string, b: string, c: char)
    ensures Count(a + b, c) == Count(a, c) + Count(b, c)
  {
    if a == "" {
      assert a + b == b;
    } else {
      assert (a + b)[1..] == a[1..] + b;
      CountAppend(a[1..], b, c);
    }
  }

  lemma {:induction false} CountAbsent(s: string, c: char)
    ensures Count(s, c) == 0 <==> c !in s
  {
    if s != "" {
      CountAbsent(s[1..], c);
      assert s == [s[0]] + s[1..];
    }
  }

  lemma PairTokens(key: string, value: string)
    requires Count(key, ';') == 0 && Count(key, '=') == 0 && Count(value, ';') == 0 && Count(value, '=') == 0
    ensures Tokens(Split(key + ['='] + value, ';')) == ["-" + key, value]
  {
    var s := key + ['='] + value;
    CountAppend(key + ['='], value, ';');
    CountAppend(key, ['='], ';');
    SplitWhole(s, ';');
    SplitSeparated(key, value, '=');
    SplitWhole(value, '=');
    assert [s][1..] == [];
  }

  lemma TwoOptionTokens(key: string, v: string)
    requires Count(key, ';') == 0 && Count(key, '=') == 0 && Count(v, ';') == 0 && Count(v, '=') == 0
    ensures Tokens(Split(key + [';'] + v, ';')) == ["-" + key, "-" + v]
  {
    SplitSeparated(key, v, ';');
    SplitWhole(v, ';');
    SplitWhole(v, '=');
    SplitWhole(key, '=');
    assert [key, v][1..] == [v] && [v][1..] == [];
    assert Tokens([v]) == ["-" + v];
  }

  /** In literals: a key and a value, each free of both separators, give the dashed key and the value. */
  lemma FormatPair(key: string, value: string)
    requires ';' !in key && '=' !in key && ';' !in value && '=' !in value
    ensures Format(Split(key + "=" + value, ';')) == Ok(["-" + key, value])
  {
    var s := key + ['='] + value;
    CountAbsent(key, ';');
    CountAbsent(key, '=');
    CountAbsent(value, ';');
    CountAbsent(value, '=');
    PairTokens(key, value);
    CountAppend(key + ['='], value, ';');
    CountAppend(key, ['='], ';');
    CountAppend(key + ['='], value, '=');
    CountAppend(key, ['='], '=');
    SplitWhole(s, ';');
    FormatSucceeds([s]);
  }

  /** A key alone gives the dashed key, the empty one included. */
  lemma FormatLone(key: string)
    requires ';' !in key && '=' !in key
    ensures Format(Split(key, ';')) == Ok(["-" + key])
  {
    CountAbsent(key, ';');
    CountAbsent(key, '=');
    SplitWhole(key, ';');
    SplitWhole(key, '=');
    FormatSucceeds([key]);
    assert Tokens([key][1..]) == [];
  }

  /** A segment with two '=' is refused. */
  lemma FormatRefuses(a: string, b: string, c: string)
    requires ';' !in a && ';' !in b && ';' !in c
    ensures Format(Split(a + "=" + b + "=" + c, ';')) == Invalid(a + "=" + b + "=" + c)
  {
    var s := a + "=" + b + "=" + c;
    CountAbsent(s, ';');
    SplitWhole(s, ';');
    CountAppend(a + "=" + b + "=", c, '=');
    CountAppend(a + "=" + b, "=", '=');
    CountAppend(a + "=", b, '=');
    CountAppend(a, "=", '=');
  }

  lemma {:induction false} SplitJoined(a: string, b: string, sep: char)
    ensures Split(a + [sep] + b, sep) == Split(a, sep) + Split(b, sep)
  {
    var s := a + [sep] + b;
    if a == "" {
      assert s[1..] == b;
    } else {
      assert s[1..] == a[1..] + [sep] + b;
      SplitJoined(a[1..], b, sep);
      var left := Split(a[1..], sep);
      assert (left + Split(b, sep))[1..] == left[1..] + Split(b, sep);
    }
  }

  lemma {:induction false} FormatAppend(xs: seq<string>, ys: seq<string>)
    ensures Format(xs + ys) == if Format(xs).Ok? then Before(Format(xs).tokens, Format(ys)) else Format(xs)
  {
    if xs == [] {
      assert xs + ys == ys;
      if Format(ys).Ok? { assert [] + Format(ys).tokens == Format(ys).tokens; }
    } else {
      assert (xs + ys)[1..] == xs[1..] + ys;
      FormatAppend(xs[1..], ys);
    }
  }

  /** Two option strings put together with ';' give the tokens of the one and then those of the other, and what is
      refused in the first is reported before what is refused in the second. */
  lemma FormatConcatenates(a: string, b: string)
    ensures var x, y, r := Format(Split(a, ';')), Format(Split(b, ';')), Format(Split(a + ";" + b, ';'));
            if x.Invalid? then r == x else if y.Invalid? then r == y else r == Ok(x.tokens + y.tokens)
  {
    SplitJoined(a, b, ';');
    FormatAppend(Split(a, ';'), Split(b, ';'));
  }

  /** Why the condition is needed: an option with a dashed value and two separate options give the
      same command line. */
  lemma DashedValueAmbiguous(key: string, v: string)
    requires Count(key, ';') == 0 && Count(key, '=') == 0 && Count(v, ';') == 0 && Count(v, '=') == 0
    ensures Tokens(Split(key + ['='] + ("-" + v), ';')) == Tokens(Split(key + [';'] + v, ';'))
    ensures key + ['='] + ("-" + v) != key + [';'] + v
  {
    assert ("-" + v)[1..] == v;
    PairTokens(key, "-" + v);
    TwoOptionTokens(key, v);
  }
}

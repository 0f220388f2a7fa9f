/**
 * The kernel's bounded formatter, on the formats and arguments for which its behaviour is defined.
 */
module Str {
  import opened Options

  const UINT32_LIMIT := 0x1_0000_0000
  const INT_MAX := 0x7fff_ffff

  // An argument after the format string; a string may be a null pointer.
  datatype Arg = Text(s: Option<string>) | Character(c: int) | Unsigned(u: nat) | Signed(d: int) | Hex(x: nat)

  // --------------------------------------------------------------------------
  // Decimal numerals
  // --------------------------------------------------------------------------

  function Digit(k: nat): char
    requires k < 10
  {
    ('0' as nat + k) as char
  }

  predicate IsDigit(c: char) {
    '0' <= c <= '9'
  }

  function DigitValue(c: char): nat
    requires IsDigit(c)
  {
    c as nat - '0' as nat
  }

  lemma DigitsInOrder(k: nat)
    requires k < 10
    ensures Digit(k) == "0123456789"[k] && DigitValue("0123456789"[k]) == k
  {}

  function Decimal(n: nat): (s: string)
    ensures |s| > 0
  {
    if n < 10 then [Digit(n)] else Decimal(n / 10) + [Digit(n % 10)]
  }

  predicate IsNumeral(s: string) {
    |s| > 0 && forall i :: 0 <= i < |s| ==> IsDigit(s[i])
  }

  /** A numeral without a superfluous leading zero. */
  predicate IsCanonical(s: string) {
    IsNumeral(s) && (|s| > 1 ==> s[0] != '0')
  }

  function Parse(s: string): nat
    requires forall i :: 0 <= i < |s| ==> IsDigit(s[i])
  {
    if s == [] then 0 else 10 * Parse(s[..|s| - 1]) + DigitValue(s[|s| - 1])
  }

  lemma {:induction false} DecimalIsCanonical(n: nat)
    ensures IsCanonical(Decimal(n))
    ensures n > 0 ==> Decimal(n)[0] != '0'
  {
    if n >= 10 {
      DecimalIsCanonical(n / 10);
    }
  }

  lemma {:induction false} DecimalParsesBack(n: nat)
    ensures IsCanonical(Decimal(n))
    ensures Parse(Decimal(n)) == n
  {
    DecimalIsCanonical(n);
    if n >= 10 {
      DecimalParsesBack(n / 10);
      var s := Decimal(n);
      assert s[..|s| - 1] == Decimal(n / 10);
    } else {
      assert Decimal(n)[..0] == [];
    }
  }

  /** Each number has one canonical numeral, so the digits written are the only ones possible. */
  lemma {:induction false} CanonicalIsDecimal(s: string)
    requires IsCanonical(s)
    ensures Decimal(Parse(s)) == s
    decreases |s|
  {
    var head, last := s[..|s| - 1], s[|s| - 1];
    var k := DigitValue(last);
    if |s| == 1 {
      assert head == [];
    } else {
      assert head[0] == s[0];
      CanonicalIsDecimal(head);
      LeadingDigit(head);
      assert Parse(s) / 10 == Parse(head) && Parse(s) % 10 == k;
      assert s == head + [last];
    }
  }

  lemma {:induction false} LeadingDigit(s: string)
    requires IsCanonical(s) && s[0] != '0'
    ensures Parse(s) > 0
    decreases |s|
  {
    if |s| > 1 {
      LeadingDigit(s[..|s| - 1]);
    }
  }

  // --------------------------------------------------------------------------
  // The text a format stands for
  // --------------------------------------------------------------------------

  // The whole text, or the text in front of a token that is not supported.
  datatype Rendering = Whole(text: string) | Unsupported(text: string)

  function Prepend(t: string, r: Rendering): Rendering {
    match r
    case Whole(u) => Whole(t + u)
    case Unsupported(u) => Unsupported(t + u)
  }

  /** The token takes the first argument, and that argument is of the kind the token names. */
  predicate Takes(token: char, args: seq<Arg>) {
    && args != []
    && (token == 's' ==>
          args[0].Text? && (args[0].s.Some? ==> '\0' !in args[0].s.value && |args[0].s.value| <= INT_MAX))
    && (token == 'c' ==> args[0].Character?)
    && (token == 'u' ==> args[0].Unsigned? && args[0].u < UINT32_LIMIT)
    && (token == 'd' ==> args[0].Signed? && 0 <= args[0].d <= INT_MAX)
    && (token == 'x' || token == 'X' ==> args[0].Hex? && args[0].x % UINT32_LIMIT == 0)
  }

  predicate IsToken(c: char) {
    c in "scudxX"
  }

  // Where the skipping after a %0 ends: at a digit other than 0, inside the format and before the
  // number that is made of the skipped characters leaves the range of an `int`.
  predicate SkipEnds(rest: string, zeros: int) {
    && rest != ""
    && if IsDigit(rest[0]) then rest[0] == '0' ==> SkipEnds(rest[1..], zeros)
       else
         && rest[0] as nat < 128 && IsInt(zeros * 10) && IsInt(Skipped(zeros, rest[0]))
         && SkipEnds(rest[1..], Skipped(zeros, rest[0]))
  }

  predicate IsInt(n: int) {
    -INT_MAX - 1 <= n <= INT_MAX
  }

  function Skipped(zeros: int, c: char): int {
    zeros * 10 + (c as int - '0' as int)
  }

  /**
   * What a caller owes: matching arguments. Behind %d no negative number, behind %x and %X none but
   * zero in its low 32 bits, and behind %0 a digit: for the others the routine has no defined behaviour.
   */
  predicate Matches(fmt: string, args: seq<Arg>)
    decreases |fmt|
  {
    if fmt == "" then true
    else if fmt[0] != '%' then Matches(fmt[1..], args)
    else if |fmt| == 1 then true
    else if fmt[1] == '%' then Matches(fmt[2..], args)
    else if IsToken(fmt[1]) then Takes(fmt[1], args) && Matches(fmt[2..], args[1..])
    else if fmt[1] == '0' then SkipEnds(fmt[2..], 0)
    else true
  }

  function Converted(arg: Arg): string
    requires arg.Signed? ==> arg.d >= 0
  {
    match arg
    case Text(s) => if s.Some? then s.value else ""
    case Character(c) => [(c % 256) as char]
    case Unsigned(u) => Decimal(u)
    case Signed(d) => Decimal(d)
    case Hex(_) => "0"
  }

  function Render(fmt: string, args: seq<Arg>): Rendering
    requires Matches(fmt, args)
    decreases |fmt|
  {
    if fmt == "" then Whole("")
    else if fmt[0] != '%' then Prepend([fmt[0]], Render(fmt[1..], args))
    else if |fmt| == 1 then Unsupported("")
    else if fmt[1] == '%' then Prepend("%", Render(fmt[2..], args))
    else if IsToken(fmt[1]) then Prepend(Converted(args[0]), Render(fmt[2..], args[1..]))
    else Unsupported("")
  }

  // --------------------------------------------------------------------------
  // What each token stands for
  // --------------------------------------------------------------------------

  /** The text `s` is what the token may show of its argument. */
  predicate Shows(token: char, arg: Arg, s: string) {
    match arg
    case Text(t) => token == 's' && s == if t.Some? then t.value else []
    case Character(c) => token == 'c' && |s| == 1 && s[0] as int == c % 256
    case Unsigned(u) => token == 'u' && IsCanonical(s) && Parse(s) == u
    case Signed(d) => token == 'd' && IsCanonical(s) && Parse(s) == d
    case Hex(x) => (token == 'x' || token == 'X') && s == ['0']
  }

  // `r` is `rest` with the text `before` in front.
  predicate Precedes(before: string, rest: Rendering, r: Rendering) {
    r.text == before + rest.text && (r.Whole? <==> rest.Whole?)
  }

  /** Characters other than % stand for themselves. */
  lemma {:induction false} LiteralsShowThemselves(prefix: string, rest: string, args: seq<Arg>)
    requires '%' !in prefix && Matches(rest, args)
    ensures Matches(prefix + rest, args) && Precedes(prefix, Render(rest, args), Render(prefix + rest, args))
    decreases |prefix|
  {
    if prefix == "" {
      assert prefix + rest == rest;
    } else {
      assert (prefix + rest)[0] == prefix[0] && (prefix + rest)[1..] == prefix[1..] + rest;
      LiteralsShowThemselves(prefix[1..], rest, args);
    }
  }

  lemma ConvertedShows(token: char, arg: Arg)
    requires IsToken(token) && Takes(token, [arg])
    ensures Shows(token, arg, Converted(arg))
  {
    hide Decimal;
    if arg.Unsigned? {
      DecimalParsesBack(arg.u);
    } else if arg.Signed? {
      DecimalParsesBack(arg.d);
    }
  }

  lemma TokenShows(token: char, arg: Arg, rest: string, more: seq<Arg>) returns (s: string)
    requires IsToken(token) && Takes(token, [arg]) && Matches(rest, more)
    ensures Shows(token, arg, s)
    ensures Matches(['%', token] + rest, [arg] + more)
    ensures Precedes(s, Render(rest, more), Render(['%', token] + rest, [arg] + more))
  {
    hide Decimal, SkipEnds;
    s := Converted(arg);
    ConvertedShows(token, arg);
    assert (['%', token] + rest)[2..] == rest && ([arg] + more)[1..] == more;
  }

  /**
   * Wherever a token stands behind literal text, the rendering has there what the token shows of its
   * argument, and goes on with the rest of the format and of the arguments.
   */
  lemma EachTokenShows(prefix: string, token: char, arg: Arg, rest: string, more: seq<Arg>) returns (s: string)
    requires '%' !in prefix && IsToken(token) && Takes(token, [arg]) && Matches(rest, more)
    ensures Shows(token, arg, s)
    ensures var fmt, args := prefix + ['%', token] + rest, [arg] + more;
      Matches(fmt, args) && Precedes(prefix + s, Render(rest, more), Render(fmt, args))
  {
    hide Render, Matches, Shows;
    s := TokenShows(token, arg, rest, more);
    LiteralsShowThemselves(prefix, ['%', token] + rest, [arg] + more);
    assert prefix + ['%', token] + rest == prefix + (['%', token] + rest);
    assert prefix + (s + Render(rest, more).text) == prefix + s + Render(rest, more).text;
  }

  /** Two percent signs show one. */
  lemma PercentShows(prefix: string, rest: string, args: seq<Arg>)
    requires '%' !in prefix && Matches(rest, args)
    ensures var fmt := prefix + "%%" + rest;
      Matches(fmt, args) && Precedes(prefix + ['%'], Render(rest, args), Render(fmt, args))
  {
    assert ("%%" + rest)[2..] == rest;
    LiteralsShowThemselves(prefix, "%%" + rest, args);
    assert prefix + "%%" + rest == prefix + ("%%" + rest);
    assert prefix + (['%'] + Render(rest, args).text) == prefix + ['%'] + Render(rest, args).text;
  }

  /** At a token that is not supported, or a % at the end, the text stops. */
  lemma UnsupportedStops(prefix: string, rest: string, args: seq<Arg>)
    requires '%' !in prefix && Matches(rest, args) && rest != "" && rest[0] == '%'
    requires |rest| > 1 ==> rest[1] !in "%scudxX"
    ensures Matches(prefix + rest, args) && Render(prefix + rest, args) == Unsupported(prefix)
  {
    LiteralsShowThemselves(prefix, rest, args);
    assert prefix + "" == prefix;
  }

  // --------------------------------------------------------------------------
  // The routines
  // --------------------------------------------------------------------------

  // Strings in memory: the characters from a pointer on, with a terminating NUL among them.
  predicate Terminated(p: seq<char>) {
    '\0' in p
  }

  /** The characters before the first NUL. */
  function Before(p: seq<char>): (s: string)
    requires Terminated(p)
    ensures |s| < |p| && s == p[..|s|] && p[|s|] == '\0' && '\0' !in s
  {
    if p[0] == '\0' then "" else [p[0]] + Before(p[1..])
  }

  method StrLen(str: Option<seq<char>>) returns (len: nat)
    requires str.Some? ==> Terminated(str.value)
    ensures len == if str.None? then 0 else |Before(str.value)|
  {
    if str.None? {
      return 0;
    }
    var p := str.value;
    len := 0;
    while p[len] != '\0'
      invariant len <= |Before(p)|
      decreases |Before(p)| - len
    {
      assert len != |Before(p)|;
      len := len + 1;
    }
  }

  function Power10(k: nat): nat {
    if k == 0 then 1 else 10 * Power10(k - 1)
  }

  function LowDigit(x: nat): (k: nat) ensures k < 10 { x % 10 }
  function DropDigit(x: nat): nat { x / 10 }

  // The last digit of a positive number, and the digits before it, if any.
  lemma LastDigit(x: nat, k: nat)
    requires 0 < x < Power10(k)
    ensures Decimal(x) == (if DropDigit(x) > 0 then Decimal(DropDigit(x)) else "") + [Digit(LowDigit(x))]
    ensures k > 0 && DropDigit(x) < Power10(k - 1) && DropDigit(x) < x
  {}

  /** The digit loop of %u and %d: digits fill the buffer from index 9 downwards. */
  method WriteDigits(u: nat, buf: array<char>) returns (start: nat)
    requires 0 < u < UINT32_LIMIT && buf.Length >= 11
    requires forall i :: 0 <= i < 11 ==> buf[i] == '\0'
    modifies buf
    ensures start < 10 && buf[start..10] == Decimal(u)
    ensures buf[10] == '\0'
  {
    hide Decimal, Digit, Power10, LowDigit, DropDigit;
    var x, i: nat := u, 0;
    ghost var digits := "";
    start := 10;
    TenDigits();
    while x > 0
      invariant i <= 10 && start == 10 - i && |digits| == i
      invariant x < Power10(10 - i)
      invariant Decimal(u) == (if x > 0 then Decimal(x) else "") + digits
      invariant i > 0 || x > 0
      invariant forall k :: start <= k < 10 ==> buf[k] == digits[k - start]
      invariant buf[10] == '\0'
    {
      LastDigit(x, 10 - i);
      digits := [Digit(LowDigit(x))] + digits;
      start := 10 - 1 - i;
      buf[start] := Digit(LowDigit(x));
      x := DropDigit(x);
      i := i + 1;
    }
    assert buf[start..10] == digits;
  }

  lemma TenDigits()
    ensures UINT32_LIMIT < Power10(10)
  {
    assert Power10(5) == 100000;
    assert Power10(10) == 10000000000;
  }

  lemma {:induction false} NoNulInDecimal(n: nat)
    ensures '\0' !in Decimal(n)
  {
    DecimalIsCanonical(n);
  }

  lemma BeforeIs(p: seq<char>, s: string)
    requires s + ['\0'] <= p && '\0' !in s
    ensures Terminated(p) && Before(p) == s
  {
    assert p[|s|] == '\0';
    assert forall k :: 0 <= k < |s| ==> p[k] == s[k] != '\0';
  }

  /** The numeral of %u and %d, as a string in memory. */
  method Numeral(u: nat, width: nat) returns (p: seq<char>)
    requires u < UINT32_LIMIT && 11 <= width <= 12
    ensures Terminated(p) && Before(p) == Decimal(u)
  {
    NoNulInDecimal(u);
    if u == 0 {
      p := ['0', '\0'];
      BeforeIs(p, Decimal(0));
      return;
    }
    var buf := new char[width];
    var i := 0;
    while i < 11
      invariant i <= 11
      invariant forall k :: 0 <= k < i ==> buf[k] == '\0'
    {
      buf[i] := '\0';
      i := i + 1;
    }
    var start := WriteDigits(u, buf);
    p := buf[start..];
    assert Decimal(u) + ['\0'] == p[..11 - start];
    BeforeIs(p, Decimal(u));
  }

  // The number of characters of a text that fit below the limit.
  function Fitting(limit: int, length: nat): nat {
    if limit <= 0 then 0 else if length < limit then length else limit
  }

  lemma NothingFits(limit: int)
    ensures Fitting(limit, 0) == 0
  {}

  lemma AllFits(limit: int, length: nat)
    requires Fitting(limit, length) < limit
    ensures Fitting(limit, length) == length && Fitting(limit, length + 1) == length + 1
  {}

  // The buffer has received, from `into` up to `next`, the front of a piece of text.
  ghost predicate Wrote(before: seq<char>, after: seq<char>, into: nat, piece: string, next: nat) {
    && into <= next <= |before| == |after| && next <= into + |piece|
    && after == before[..into] + piece[..next - into] + before[next..]
  }

  /** One character into the buffer. */
  method Put(str: array<char>, into: nat, c: char) returns (next: nat)
    requires into < str.Length
    modifies str
    ensures next == into + 1 && Wrote(old(str[..]), str[..], into, [c], next)
  {
    str[into] := c;
    return into + 1;
  }

  /** The copying loop of `snprintf`. */
  method Emit(str: array<char>, into: nat, limit: int, p: seq<char>) returns (next: nat)
    requires into <= limit <= str.Length && Terminated(p)
    modifies str
    ensures next == Fitting(limit, into + |Before(p)|)
    ensures Wrote(old(str[..]), str[..], into, Before(p), next)
  {
    hide Before, Wrote, Fitting;
    ghost var text, before := Before(p), str[..];
    next := into;
    var m: nat := 0;
    var len := StrLen(Some(p));
    while m < len && next < limit
      invariant m <= len && next == into + m && next <= limit
      invariant forall k :: 0 <= k < str.Length ==> str[k] == if into <= k < next then text[k - into] else before[k]
    {
      str[next] := p[m];
      m := m + 1;
      next := next + 1;
    }
    WroteByElement(before, str[..], into, text, next);
    FitsOrFills(limit, into, len, next);
  }

  lemma WroteByElement(before: seq<char>, after: seq<char>, into: nat, piece: string, next: nat)
    requires into <= next <= |before| == |after| && next <= into + |piece|
    requires forall k :: 0 <= k < |after| ==> after[k] == if into <= k < next then piece[k - into] else before[k]
    ensures Wrote(before, after, into, piece, next)
  {}

  lemma FitsOrFills(limit: int, into: nat, len: nat, next: nat)
    requires into <= next <= into + len && into <= limit && next <= limit && (next == into + len || next == limit)
    ensures next == Fitting(limit, into + len)
  {}

  // The text rendered so far, and that the rest of the format has still to be rendered.
  ghost predicate Halfway(fmt: string, args: seq<Arg>, done: string, rest: string, left: seq<Arg>) {
    && Matches(fmt, args) && Matches(rest, left)
    && Render(fmt, args) == Prepend(done, Render(rest, left))
  }

  lemma HalfwayStarts(fmt: string, args: seq<Arg>)
    requires Matches(fmt, args)
    ensures Halfway(fmt, args, "", fmt, args)
  {
    var r := Render(fmt, args);
    assert "" + r.text == r.text;
  }

  lemma PrependTwice(t: string, u: string, r: Rendering)
    ensures Prepend(t, Prepend(u, r)) == Prepend(t + u, r)
  {
    assert t + (u + r.text) == t + u + r.text;
  }

  lemma PassesCharacter(fmt: string, args: seq<Arg>, done: string, rest: string, left: seq<Arg>)
    requires Halfway(fmt, args, done, rest, left) && rest != "" && rest[0] != '%'
    ensures Halfway(fmt, args, done + [rest[0]], rest[1..], left)
  {
    PrependTwice(done, [rest[0]], Render(rest[1..], left));
  }

  lemma PassesPercent(fmt: string, args: seq<Arg>, done: string, rest: string, left: seq<Arg>)
    requires Halfway(fmt, args, done, rest, left) && |rest| > 1 && rest[0] == '%' && rest[1] == '%'
    ensures Halfway(fmt, args, done + "%", rest[2..], left)
  {
    PrependTwice(done, "%", Render(rest[2..], left));
  }

  lemma PassesToken(fmt: string, args: seq<Arg>, done: string, rest: string, left: seq<Arg>)
    requires Halfway(fmt, args, done, rest, left) && |rest| > 1 && rest[0] == '%' && IsToken(rest[1])
    ensures left != [] && Takes(rest[1], [left[0]]) && (left[0].Signed? ==> left[0].d >= 0)
    ensures Halfway(fmt, args, done + Converted(left[0]), rest[2..], left[1..])
  {
    PrependTwice(done, Converted(left[0]), Render(rest[2..], left[1..]));
  }

  lemma EndsWhole(fmt: string, args: seq<Arg>, done: string, left: seq<Arg>)
    requires Halfway(fmt, args, done, "", left)
    ensures Render(fmt, args) == Whole(done)
  {
    assert done + "" == done;
  }

  lemma EndsUnsupported(fmt: string, args: seq<Arg>, done: string, rest: string, left: seq<Arg>)
    requires Halfway(fmt, args, done, rest, left)
    requires rest != "" && rest[0] == '%' && (|rest| == 1 || (rest[1] != '%' && !IsToken(rest[1])))
    ensures Render(fmt, args) == Unsupported(done)
  {
    assert done + "" == done;
  }

  lemma DoneIsPrefix(fmt: string, args: seq<Arg>, done: string, rest: string, left: seq<Arg>)
    requires Halfway(fmt, args, done, rest, left)
    ensures done <= Render(fmt, args).text
  {
    hide Render, Matches;
  }

  // A buffer that starts with what fits of `done`, over its first contents.
  ghost predicate Starts(first: seq<char>, now: seq<char>, done: string, into: nat) {
    into <= |done| && into <= |first| == |now| && now == done[..into] + first[into..]
  }

  lemma StartsEmpty(first: seq<char>)
    ensures Starts(first, first, "", 0)
  {}

  lemma StartsGrows(first: seq<char>, before: seq<char>, after: seq<char>, done: string, piece: string, next: nat)
    requires Starts(first, before, done, |done|) && Wrote(before, after, |done|, piece, next)
    ensures Starts(first, after, done + piece, next)
  {}

  lemma StartsWithPrefix(first: seq<char>, now: seq<char>, done: string, text: string, into: nat)
    requires Starts(first, now, done, into) && done <= text
    ensures now == text[..into] + first[into..]
  {}

  /** The part of `snprintf` that converts one argument. */
  method Convert(str: array<char>, into: nat, limit: int, token: char, arg: Arg) returns (next: nat)
    requires into < limit <= str.Length && IsToken(token) && Takes(token, [arg])
    modifies str
    ensures next == Fitting(limit, into + |Converted(arg)|)
    ensures Wrote(old(str[..]), str[..], into, Converted(arg), next)
    ensures Shows(token, arg, Converted(arg))
  {
    hide Decimal, Before, Shows;
    ConvertedShows(token, arg);
    if token == 'c' {
      next := Put(str, into, (arg.c % 256) as char);
      return;
    }
    if token == 's' {
      if arg.s.None? {
        assert Wrote(str[..], str[..], into, "", into);
        return into;
      }
      BeforeIs(arg.s.value + ['\0'], arg.s.value);
      next := Emit(str, into, limit, arg.s.value + ['\0']);
      return;
    }
    var p;
    if token == 'u' {
      p := Numeral(arg.u, 11);
    } else if token == 'd' {
      p := Numeral(arg.d, 12);
    } else {
      p := ['0', '\0'];
      BeforeIs(p, "0");
    }
    next := Emit(str, into, limit, p);
  }

  /** `now` is `first` with as much of the rendering as fits below the limit, and `n` says how much, or -1. */
  ghost predicate Printed(fmt: string, args: seq<Arg>, limit: int, first: seq<char>, now: seq<char>, n: int)
    requires Matches(fmt, args) && limit <= |first|
  {
    var r := Render(fmt, args);
    var w := if limit <= 0 then 0 else if |r.text| < limit then |r.text| else limit;
    && n == (if r.Unsupported? && |r.text| < limit then -1 else w)
    && now == r.text[..w] + first[w..]
  }

  lemma PrintedUpToToken(fmt: string, args: seq<Arg>, limit: int, first: seq<char>, now: seq<char>,
                         done: string, rest: string, left: seq<Arg>, into: nat)
    requires Halfway(fmt, args, done, rest, left) && Starts(first, now, done, into)
    requires into == Fitting(limit, |done|) && into < limit <= |first|
    requires rest != "" && rest[0] == '%' && (|rest| == 1 || (rest[1] != '%' && !IsToken(rest[1])))
    ensures Printed(fmt, args, limit, first, now, -1)
  {
    hide Render, Matches, Halfway, IsToken;
    HalfwayMatches(fmt, args, done, rest, left);
    EndsUnsupported(fmt, args, done, rest, left);
  }

  lemma PrintedUpToEnd(fmt: string, args: seq<Arg>, limit: int, first: seq<char>, now: seq<char>,
                       done: string, rest: string, left: seq<Arg>, into: nat)
    requires Halfway(fmt, args, done, rest, left) && Starts(first, now, done, into)
    requires into == Fitting(limit, |done|) && limit <= |first| && (rest == "" || into >= limit)
    ensures Matches(fmt, args) && Printed(fmt, args, limit, first, now, into)
  {
    hide Render, Matches, Halfway;
    HalfwayMatches(fmt, args, done, rest, left);
    DoneIsPrefix(fmt, args, done, rest, left);
    StartsWithPrefix(first, now, done, Render(fmt, args).text, into);
    if rest == "" {
      EndsWhole(fmt, args, done, left);
    }
  }

  lemma HalfwayMatches(fmt: string, args: seq<Arg>, done: string, rest: string, left: seq<Arg>)
    requires Halfway(fmt, args, done, rest, left)
    ensures Matches(fmt, args)
  {}

  lemma TailOfTail<T>(s: seq<T>, i: nat, k: nat)
    requires i + k <= |s|
    ensures s[i..][k..] == s[i + k..]
  {}

  lemma SkipIsOwed(fmt: string, args: seq<Arg>, done: string, rest: string, left: seq<Arg>)
    requires Halfway(fmt, args, done, rest, left) && |rest| > 1 && rest[0] == '%' && rest[1] == '0'
    ensures SkipEnds(rest[2..], 0)
  {}

  /** The case of %0: whatever is skipped, the token that is looked at next is a digit, which no case supports. */
  method SkipZeros(fmt: string, cursor: nat) returns (next: nat)
    requires cursor < |fmt| && fmt[cursor] == '0' && SkipEnds(fmt[cursor + 1..], 0)
    ensures cursor < next < |fmt| && '1' <= fmt[next] <= '9' && fmt[next] != '%' && !IsToken(fmt[next])
  {
    var leadingZeros := 0;
    next := cursor;
    while fmt[next] == '0'
      invariant cursor <= next < |fmt| && IsDigit(fmt[next])
      invariant fmt[next] == '0' ==> SkipEnds(fmt[next + 1..], leadingZeros)
      invariant next == cursor ==> fmt[next] == '0'
      decreases |fmt| - next
    {
      next := next + 1;
      while !('0' <= fmt[next] <= '9')
        invariant cursor < next < |fmt| && SkipEnds(fmt[next..], leadingZeros)
        decreases |fmt| - next
      {
        leadingZeros := leadingZeros * 10 + (fmt[next] as int - '0' as int);
        next := next + 1;
      }
    }
  }

  /** Writes at most `limit` characters of the rendering, and says how many; -1 at an unsupported token. */
  method Snprintf(str: array<char>, limit: int, fmt: string, args: seq<Arg>) returns (n: int)
    requires limit <= str.Length && limit <= INT_MAX && |fmt| <= INT_MAX
    requires '\0' !in fmt && Matches(fmt, args)
    modifies str
    ensures Printed(fmt, args, limit, old(str[..]), str[..], n)
  {
    hide Render, Matches, Halfway, Converted, Wrote, Starts, Takes, IsToken, SkipEnds, Fitting, Printed;
    var cursor: nat, into: nat, arg: nat := 0, 0, 0;
    ghost var first, done, rest, left := str[..], "", fmt, args;
    HalfwayStarts(fmt, args);
    StartsEmpty(first);
    NothingFits(limit);
    while cursor < |fmt| && into < limit
      invariant cursor <= |fmt| && arg <= |args|
      invariant rest == fmt[cursor..] && left == args[arg..]
      invariant into == Fitting(limit, |done|)
      invariant Halfway(fmt, args, done, rest, left)
      invariant Starts(first, str[..], done, into)
    {
      ghost var before, piece := str[..], "";
      AllFits(limit, |done|);
      if fmt[cursor] == '%' {
        cursor := cursor + 1;
        if cursor == |fmt| {
          PrintedUpToToken(fmt, args, limit, first, before, done, rest, left, into);
          return -1;
        }
        if fmt[cursor] == '%' {
          PassesPercent(fmt, args, done, rest, left);
          piece := "%";
          into := Put(str, into, '%');
        } else if IsToken(fmt[cursor]) {
          PassesToken(fmt, args, done, rest, left);
          piece := Converted(left[0]);
          into := Convert(str, into, limit, fmt[cursor], args[arg]);
          TailOfTail(args, arg, 1);
          arg, left := arg + 1, left[1..];
        } else {
          PrintedUpToToken(fmt, args, limit, first, before, done, rest, left, into);
          if fmt[cursor] == '0' {
            SkipIsOwed(fmt, args, done, rest, left);
            cursor := SkipZeros(fmt, cursor);
          }
          return -1;
        }
        TailOfTail(fmt, cursor - 1, 2);
        cursor, rest := cursor + 1, rest[2..];
      } else {
        PassesCharacter(fmt, args, done, rest, left);
        piece := [fmt[cursor]];
        into := Put(str, into, fmt[cursor]);
        TailOfTail(fmt, cursor, 1);
        cursor, rest := cursor + 1, rest[1..];
      }
      StartsGrows(first, before, str[..], done, piece, into);
      done := done + piece;
    }
    PrintedUpToEnd(fmt, args, limit, first, str[..], done, rest, left, into);
    return into;
  }
}

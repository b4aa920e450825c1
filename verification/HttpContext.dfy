/** HTTP requests as `mytinyhttpd/http/http_request.h` stores them and `mytinyhttpd/http/http_context.cc`
    reads their lines. */
module HttpRequests {

  datatype Method = Invalid | Get | Post | Head | Put | Delete | Options

  datatype Version = Unknown | Http10 | Http11

  datatype Request = Request(
    verb: Method,
    version: Version,
    path: string,
    query: string,
    headers: map<string, string>,
    body: string)

  const NO_REQUEST := Request(Invalid, Unknown, "", "", map[], "")

  /** `std::find`: the first position of `c`, or the end. */
  function Find(s: string, c: char): (i: nat)
    ensures i <= |s| && c !in s[..i] && (i < |s| ==> s[i] == c)
  {
    if s == "" || s[0] == c then 0
    else
      var i := Find(s[1..], c) + 1;
      assert s[..i] == [s[0]] + s[1..][..i - 1];
      i
  }

  lemma {:induction false} FindIs(s: string, c: char, i: nat)
    requires i <= |s| && c !in s[..i] && (i < |s| ==> s[i] == c)
    ensures Find(s, c) == i
  {
    if i > 0 {
      assert s[0] in s[..i];
      assert forall j :: 0 <= j < i - 1 ==> s[1..][j] == s[..i][j + 1];
      FindIs(s[1..], c, i - 1);
    }
  }

  lemma FindAfter(a: string, c: char, b: string)
    requires c !in a
    ensures Find(a + [c] + b, c) == |a|
  {
    assert (a + [c] + b)[..|a|] == a;
    FindIs(a + [c] + b, c, |a|);
  }

  lemma FindNone(s: string, c: char)
    requires c !in s
    ensures Find(s, c) == |s|
  {
    assert s[..|s|] == s;
    FindIs(s, c, |s|);
  }

  // ---------------------------------------------------------------- methods

  function MethodName(m: Method): (s: string) {
    match m
    case Invalid => "UNKNOWN"
    case Get => "GET"
    case Post => "POST"
    case Head => "HEAD"
    case Put => "PUT"
    case Delete => "DELETE"
    case Options => "OPTIONS"
  }

  /** `SetMethod` compares as many bytes as the name has, whatever the length of the token. The names have
      no space and a space ends the token, so the comparisons are with prefixes of the token. */
  function MethodOf(token: string): (m: Method) {
    if "GET" <= token then Get
    else if "POST" <= token then Post
    else if "HEAD" <= token then Head
    else if "PUT" <= token then Put
    else if "DELETE" <= token then Delete
    else if "OPTIONS" <= token then Options
    else Invalid
  }

  /** Every token that starts with a method's name gives the method, and no other does. */
  lemma MethodByPrefix(token: string, m: Method)
    requires m != Invalid
    ensures MethodOf(token) == m <==> MethodName(m) <= token
  {
    assert "GET" <= token ==> token[0] == 'G';
    assert "POST" <= token ==> token[0] == 'P' && token[1] == 'O';
    assert "HEAD" <= token ==> token[0] == 'H';
    assert "PUT" <= token ==> token[0] == 'P' && token[1] == 'U';
    assert "DELETE" <= token ==> token[0] == 'D';
    assert "OPTIONS" <= token ==> token[0] == 'O';
  }

  // ---------------------------------------------------------------- header lines

  predicate IsSpace(c: char) {
    c == ' ' || '\t' <= c <= '\r'
  }

  /** `isspace` in the C locale. */
  lemma SpaceIs(c: char)
    ensures IsSpace(c) <==> c in [' ', '\t', '\n', 11 as char, 12 as char, '\r']
  {
    assert ' ' as int == 32 && '\t' as int == 9 && '\n' as int == 10 && '\r' as int == 13;
  }

  predicate AllSpace(s: string) {
    forall i :: 0 <= i < |s| ==> IsSpace(s[i])
  }

  predicate Trimmed(s: string) {
    s == "" || (!IsSpace(s[0]) && !IsSpace(s[|s| - 1]))
  }

  function TrimLeft(s: string): (t: string) {
    if s != "" && IsSpace(s[0]) then TrimLeft(s[1..]) else s
  }

  function TrimRight(s: string): (t: string) {
    if s != "" && IsSpace(s[|s| - 1]) then TrimRight(s[..|s| - 1]) else s
  }

  function Trim(s: string): (t: string) {
    TrimRight(TrimLeft(s))
  }

  lemma {:induction false} TrimLeftSkips(pad: string, s: string)
    requires AllSpace(pad) && (s == "" || !IsSpace(s[0]))
    ensures TrimLeft(pad + s) == s
  {
    if pad == "" {
      assert pad + s == s;
    } else {
      TrimLeftSkips(pad[1..], s);
      assert (pad + s)[1..] == pad[1..] + s;
    }
  }

  lemma {:induction false} TrimRightSkips(s: string, pad: string)
    requires AllSpace(pad) && (s == "" || !IsSpace(s[|s| - 1]))
    ensures TrimRight(s + pad) == s
    decreases |pad|
  {
    if pad == "" {
      assert s + pad == s;
    } else {
      TrimRightSkips(s, pad[..|pad| - 1]);
      assert (s + pad)[..|s + pad| - 1] == s + pad[..|pad| - 1];
    }
  }

  lemma {:induction false} AllSpaceTrims(pad: string)
    requires AllSpace(pad)
    ensures TrimLeft(pad) == ""
  {
    if pad != "" {
      AllSpaceTrims(pad[1..]);
    }
  }

  /** A value comes back without the white space around it. */
  lemma TrimUndoesPadding(before: string, value: string, after: string)
    requires AllSpace(before) && AllSpace(after) && Trimmed(value)
    ensures Trim(before + value + after) == value
  {
    if value == "" {
      assert before + value + after == before + after;
      AllSpaceTrims(before + after);
    } else {
      assert before + value + after == before + (value + after);
      TrimLeftSkips(before, value + after);
      TrimRightSkips(value, after);
    }
  }

  lemma {:induction false} TrimLeftSplits(s: string) returns (pad: string)
    ensures AllSpace(pad) && s == pad + TrimLeft(s) && (TrimLeft(s) == "" || !IsSpace(TrimLeft(s)[0]))
  {
    pad := "";
    if s != "" && IsSpace(s[0]) {
      var rest := TrimLeftSplits(s[1..]);
      pad := [s[0]] + rest;
      assert s == [s[0]] + s[1..];
    }
  }

  lemma {:induction false} TrimRightSplits(s: string) returns (pad: string)
    ensures AllSpace(pad) && s == TrimRight(s) + pad
    ensures TrimRight(s) == "" || (!IsSpace(TrimRight(s)[|TrimRight(s)| - 1]) && TrimRight(s)[0] == s[0])
  {
    pad := "";
    if s != "" && IsSpace(s[|s| - 1]) {
      var rest := TrimRightSplits(s[..|s| - 1]);
      pad := rest + [s[|s| - 1]];
      assert s == s[..|s| - 1] + [s[|s| - 1]];
    }
  }

  /** Only white space is taken off, and all of it. */
  lemma TrimSplits(s: string) returns (before: string, after: string)
    ensures AllSpace(before) && AllSpace(after) && Trimmed(Trim(s)) && s == before + Trim(s) + after
  {
    before := TrimLeftSplits(s);
    after := TrimRightSplits(TrimLeft(s));
    hide TrimLeft, TrimRight;
    assert before + (Trim(s) + after) == before + Trim(s) + after;
  }

  function AddHeader(r: Request, line: string, colon: nat): (r': Request)
    requires colon < |line|
  {
    r.(headers := r.headers[line[..colon] := Trim(line[colon + 1..])])
  }

  // ---------------------------------------------------------------- the request line

  datatype LineResult = Good(request: Request) | Bad(request: Request) | Broken

  function VersionName(v: Version): (s: string) {
    if v == Http11 then "HTTP/1.1" else "HTTP/1.0"
  }

  function Target(r: Request, target: string, version: string): (result: LineResult) {
    if target == "" || target[0] == '?' then Broken
    else
      var question := Find(target, '?');
      var r1 := if question < |target| then r.(path := target[1..question], query := target[question..])
                else r.(path := target[1..]);
      if version == "HTTP/1.1" then Good(r1.(version := Http11))
      else if version == "HTTP/1.0" then Good(r1.(version := Http10))
      else Bad(r1)
  }

  /** `Broken` stands for a failed assertion (a method is there already) and for a range with its end
      before its start (the path of an empty target, or of one that starts with a question mark). */
  function RequestLine(r: Request, line: string): (result: LineResult) {
    var space := Find(line, ' ');
    if space == |line| then Bad(r)
    else if r.verb != Invalid then Broken
    else
      var r1 := r.(verb := MethodOf(line[..space]));
      var rest := line[space + 1..];
      var space2 := Find(rest, ' ');
      if space2 == |rest| then Bad(r1) else Target(r1, rest[..space2], rest[space2 + 1..])
  }

  /** What a target has behind its first character. */
  predicate WellFormedTarget(path: string, query: string) {
    && ' ' !in path && '?' !in path
    && ' ' !in query && (query != "" ==> query[0] == '?')
  }

  function RenderRequestLine(m: Method, path: string, query: string, v: Version): (line: string) {
    MethodName(m) + " " + ("/" + path + query) + " " + VersionName(v)
  }

  /** The version a request line ends with. */
  function VersionOf(version: string): (v: Version) {
    if version == VersionName(Http11) then Http11 else if version == VersionName(Http10) then Http10 else Unknown
  }

  /** A request line: a token, and a target with a path and a query. */
  predicate IsRequestLine(line: string, token: string, first: char, path: string, query: string, version: string) {
    && ' ' !in token && first != ' ' && first != '?' && WellFormedTarget(path, query)
    && line == token + " " + ([first] + path + query) + " " + version
  }

  lemma TargetSplits(first: char, path: string, query: string)
    requires WellFormedTarget(path, query) && first != '?' && first != ' '
    ensures var target := [first] + path + query;
            && target != "" && target[0] != '?' && ' ' !in target
            && (if query == "" then Find(target, '?') == |target| && target[1..] == path
                else Find(target, '?') == 1 + |path| && target[1..1 + |path|] == path && target[1 + |path|..] == query)
  {
    var target := [first] + path + query;
    if query == "" {
      assert target == [first] + path;
      FindNone(target, '?');
    } else {
      assert target[..1 + |path|] == [first] + path;
      FindIs(target, '?', 1 + |path|);
    }
  }

  /** A target that does not start with a question mark has a path and a query, which may be empty. */
  lemma TargetParts(target: string) returns (path: string, query: string)
    requires target != "" && target[0] != '?' && ' ' !in target
    ensures WellFormedTarget(path, query) && target == [target[0]] + path + query
  {
    var question := Find(target, '?');
    path, query := target[1..question], target[question..];
    assert target[..question] == [target[0]] + path;
    assert target == target[..question] + query;
  }

  lemma NoSpaceInNames(m: Method)
    ensures ' ' !in MethodName(m)
  {
  }

  /** What is read from a request line: the method the token starts with, the path, the query if there is one,
      and the version; any other version is refused. */
  lemma RequestLineIs(r: Request, token: string, first: char, path: string, query: string, version: string)
    requires r.verb == Invalid
    requires ' ' !in token && first != ' ' && first != '?' && WellFormedTarget(path, query)
    ensures var r1 := r.(verb := MethodOf(token), path := path, query := if query == "" then r.query else query);
            RequestLine(r, token + " " + ([first] + path + query) + " " + version) ==
            if VersionOf(version) == Unknown then Bad(r1) else Good(r1.(version := VersionOf(version)))
  {
    TargetSplits(first, path, query);
    RequestLineSplits(r, token, [first] + path + query, version);
    hide Find, MethodOf, RequestLine;
  }

  lemma RequestLineRoundTrip(r: Request, m: Method, path: string, query: string, v: Version)
    requires r.verb == Invalid && r.query == "" && m != Invalid && v != Unknown && WellFormedTarget(path, query)
    ensures RequestLine(r, RenderRequestLine(m, path, query, v)) ==
            Good(r.(verb := m, version := v, path := path, query := query))
  {
    NoSpaceInNames(m);
    MethodByPrefix(MethodName(m), m);
    RequestLineIs(r, MethodName(m), '/', path, query, VersionName(v));
    hide Find, MethodOf, MethodName, RequestLine;
  }

  lemma RequestLineSplits(r: Request, token: string, target: string, version: string)
    requires r.verb == Invalid && ' ' !in token && ' ' !in target
    ensures RequestLine(r, token + " " + target + " " + version) ==
            Target(r.(verb := MethodOf(token)), target, version)
  {
    hide MethodOf, Target;
    var line, rest := token + " " + target + " " + version, target + " " + version;
    assert line == token + [' '] + rest;
    FindAfter(token, ' ', rest);
    FindAfter(target, ' ', version);
    assert line[..|token|] == token && line[|token| + 1..] == rest;
    assert rest[..|target|] == target && rest[|target| + 1..] == version;
  }

  lemma FoundParts(s: string, c: char)
    requires c in s
    ensures var i := Find(s, c); i < |s| && s == s[..i] + [c] + s[i + 1..]
  {
    var i := Find(s, c);
    hide Find;
    assert s[..|s|] == s;
  }

  /** The first two spaces of a line that has them. */
  lemma LineParts(line: string) returns (token: string, target: string, version: string)
    requires ' ' in line && ' ' in line[Find(line, ' ') + 1..]
    ensures ' ' !in token && ' ' !in target && line == token + " " + target + " " + version
  {
    var space := Find(line, ' ');
    var rest := line[space + 1..];
    var space2 := Find(rest, ' ');
    token, target, version := line[..space], rest[..space2], rest[space2 + 1..];
    FoundParts(line, ' ');
    FoundParts(rest, ' ');
    hide Find;
    ThreeParts(token, target, version);
  }

  lemma ThreeParts(a: string, b: string, c: string)
    ensures a + [' '] + (b + [' '] + c) == a + " " + b + " " + c
  {
  }

  /** A line with fewer than two spaces is refused; the method is kept if there is one space. */
  lemma ShortLineIsBad(r: Request, line: string)
    requires r.verb == Invalid
    ensures ' ' !in line ==> RequestLine(r, line) == Bad(r)
    ensures forall token, rest :: ' ' !in token && ' ' !in rest && line == token + " " + rest ==>
              RequestLine(r, line) == Bad(r.(verb := MethodOf(token)))
  {
    hide MethodOf, Target;
    if ' ' !in line {
      FindNone(line, ' ');
    }
    forall token, rest | ' ' !in token && ' ' !in rest && line == token + " " + rest
      ensures RequestLine(r, line) == Bad(r.(verb := MethodOf(token)))
    {
      assert line == token + [' '] + rest;
      FindAfter(token, ' ', rest);
      FindNone(rest, ' ');
      assert line[..|token|] == token && line[|token| + 1..] == rest;
    }
  }

  /** The line has an empty target, or one that starts with a question mark. */
  predicate NoTarget(line: string, token: string, target: string, version: string) {
    && ' ' !in token && ' ' !in target && (target == "" || target[0] == '?')
    && line == token + " " + target + " " + version
  }

  lemma BrokenLine(r: Request, line: string, token: string, target: string, version: string)
    requires r.verb == Invalid && NoTarget(line, token, target, version)
    ensures RequestLine(r, line).Broken?
  {
    RequestLineSplits(r, token, target, version);
    hide Find, MethodOf, RequestLine;
  }

  ghost predicate Acceptable(line: string) {
    exists token, first, path, query, version ::
      IsRequestLine(line, token, first, path, query, version) && VersionOf(version) != Unknown
  }

  ghost predicate TargetMissing(line: string) {
    exists token, target, version :: NoTarget(line, token, target, version)
  }

  lemma OtherLinesAreBad(r: Request, line: string)
    requires r.verb == Invalid && !Acceptable(line) && !TargetMissing(line)
    ensures RequestLine(r, line).Bad?
  {
    hide MethodOf, Target, VersionOf;
    if ' ' in line && ' ' in line[Find(line, ' ') + 1..] {
      var token, target, version := LineParts(line);
      assert !NoTarget(line, token, target, version);
      var path, query := TargetParts(target);
      assert IsRequestLine(line, token, target[0], path, query, version);
      RequestLineIs(r, token, target[0], path, query, version);
    }
  }

  /** A request line is accepted if and only if it is a token, a target and one of the two versions, between
      single spaces; the behaviour is undefined if and only if the target is missing or starts with a question
      mark; and every other line is refused. */
  lemma RequestLineGoodIff(r: Request, line: string)
    requires r.verb == Invalid
    ensures RequestLine(r, line).Good? <==> Acceptable(line)
    ensures RequestLine(r, line).Broken? <==> TargetMissing(line)
  {
    hide RequestLine, Find, MethodOf;
    forall token, first, path, query, version
      | IsRequestLine(line, token, first, path, query, version) && VersionOf(version) != Unknown
      ensures RequestLine(r, line).Good?
    {
      RequestLineIs(r, token, first, path, query, version);
    }
    forall token, target, version | NoTarget(line, token, target, version)
      ensures RequestLine(r, line).Broken?
    {
      BrokenLine(r, line, token, target, version);
    }
    if !Acceptable(line) && !TargetMissing(line) {
      OtherLinesAreBad(r, line);
    }
  }
}

/** The incremental parser of `mytinyhttpd/http/http_context.cc`: lines are taken from a buffer as they
    become complete, and the state says which kind of line is next. */
module HttpContexts {
  import opened HttpRequests
  import opened Buffers
  import Numerals

  datatype State = ExpectRequestLine | ExpectHeaders | ExpectBody | GotAll

  datatype Context = Context(state: State, request: Request)

  const NEW_CONTEXT := Context(ExpectRequestLine, NO_REQUEST)

  // ---------------------------------------------------------------- the parser on values

  /** The request line and the headers, as far as there are complete lines of them. */
  datatype HeadResult =
    | Complete(request: Request, rest: string)
    | NeedMore(context: Context, rest: string)
    | Refused(context: Context, rest: string)
    | HeadBroken

  function ReadHead(c: Context, buf: string): (h: HeadResult)
    requires c.state != GotAll
    ensures h.NeedMore? ==> h.context.state != ExpectBody && h.context.state != GotAll
    decreases |buf|
  {
    var at := CrlfIn(buf);
    if c.state == ExpectBody then Complete(c.request, buf)
    else if at < 0 then NeedMore(c, buf)
    else
      var line, rest := buf[..at], buf[at + 2..];
      if c.state == ExpectRequestLine then
        match RequestLine(c.request, line)
        case Good(r) => ReadHead(Context(ExpectHeaders, r), rest)
        case Bad(r) => Refused(Context(ExpectRequestLine, r), buf)
        case Broken => HeadBroken
      else
        var colon := Find(line, ':');
        if colon < |line| then ReadHead(Context(ExpectHeaders, AddHeader(c.request, line, colon)), rest)
        else Complete(c.request, rest)
  }

  datatype Parsed = Parsed(ok: bool, context: Context, rest: string) | ParseBroken

  const CONTENT_LENGTH := "Content-Length"

  /** Whether the outcome depends on the bytes after the headers. */
  predicate TakesBody(r: Request) {
    (r.verb == Post || r.verb == Put) && CONTENT_LENGTH in r.headers && r.headers[CONTENT_LENGTH] != ""
  }

  function ReadBody(r: Request, buf: string): (p: Parsed) {
    if r.verb != Post && r.verb != Put then Parsed(true, Context(GotAll, r), buf)
    else if !TakesBody(r) || Strtol(r.headers[CONTENT_LENGTH]) != |buf| then
      Parsed(false, Context(ExpectBody, r), buf)
    else Parsed(true, Context(GotAll, r.(body := buf)), "")
  }

  function Parse(c: Context, buf: string): (p: Parsed)
    requires c.state != GotAll
  {
    match ReadHead(c, buf)
    case Complete(r, rest) => ReadBody(r, rest)
    case NeedMore(c', rest) => Parsed(true, c', rest)
    case Refused(c', rest) => Parsed(false, c', rest)
    case HeadBroken => ParseBroken
  }

  // ---------------------------------------------------------------- strtol

  function LeadingDigits(s: string): (n: nat)
    ensures n <= |s|
  {
    if s == "" || !Numerals.IsDigit(s[0], 10) then 0 else 1 + LeadingDigits(s[1..])
  }

  const LONG_MAX := 0x7fff_ffff_ffff_ffff
  const LONG_MIN := -0x8000_0000_0000_0000

  function Clamp(x: int): (y: int)
    ensures LONG_MIN <= y <= LONG_MAX
  {
    if x > LONG_MAX then LONG_MAX else if x < LONG_MIN then LONG_MIN else x
  }

  /** `strtol` in base ten: white space, a sign, digits; the rest is ignored. */
  function Strtol(s: string): (x: int) {
    var t := TrimLeft(s);
    var signed := t != "" && (t[0] == '-' || t[0] == '+');
    var u := if signed then t[1..] else t;
    var n := Numerals.ValueOf(u[..LeadingDigits(u)], 10);
    Clamp(if signed && t[0] == '-' then 0 - n else n)
  }

  lemma {:induction false} DigitsEnd(s: string, junk: string)
    requires Numerals.IsNumeral(s, 10) && (junk == "" || !Numerals.IsDigit(junk[0], 10))
    ensures LeadingDigits(s + junk) == |s|
  {
    hide Numerals.IsDigit;
    if s == "" {
      assert s + junk == junk;
    } else {
      DigitsEnd(s[1..], junk);
      assert (s + junk)[1..] == s[1..] + junk;
    }
  }

  lemma DigitChar(c: char)
    requires Numerals.IsDigit(c, 10)
    ensures '0' <= c <= '9'
  {
    Numerals.DigitRoundTrip(Numerals.ValueOfDigit(c));
  }

  /** `strtol` skips white space, reads a sign and the decimal behind it, and stops where the digits end; a
      number that does not fit a `long` gives the nearest that does. */
  lemma StrtolIs(pad: string, sign: string, n: nat, junk: string)
    requires AllSpace(pad) && (sign == "" || sign == "+" || sign == "-")
    requires junk == "" || !Numerals.IsDigit(junk[0], 10)
    ensures Strtol(pad + sign + Numerals.Decimal(n) + junk) == Clamp(if sign == "-" then 0 - n else n)
  {
    var s := Numerals.Decimal(n);
    Numerals.NumeralRoundTrip(n, 10);
    DigitChar(s[0]);
    DigitsEnd(s, junk);
    hide Numerals.ValueOf, Numerals.Numeral, Numerals.IsDigit, Numerals.Decimal, LeadingDigits, Strtol, TrimLeft;
    var t := sign + s + junk;
    assert t[0] == if sign == "" then s[0] else sign[0];
    TrimLeftSkips(pad, t);
    PadFirst(pad, sign, s, junk);
    StrtolFrom(pad + sign + s + junk, sign, s, junk);
  }

  lemma PadFirst(pad: string, sign: string, s: string, junk: string)
    ensures pad + sign + s + junk == pad + (sign + s + junk)
  {
  }

  lemma StrtolFrom(x: string, sign: string, s: string, junk: string)
    requires TrimLeft(x) == sign + s + junk && (sign == "" || sign == "+" || sign == "-")
    requires s != "" && s[0] != '+' && s[0] != '-' && LeadingDigits(s + junk) == |s|
    ensures var n := Numerals.ValueOf(s, 10); Strtol(x) == Clamp(if sign == "-" then 0 - n else n)
  {
    hide Numerals.ValueOf, TrimLeft, LeadingDigits;
    var t, u := sign + s + junk, s + junk;
    if sign == "" {
      assert t == u;
    } else {
      assert t[0] == sign[0] && t[1..] == u;
    }
    assert u[..|s|] == s;
  }

  /** `strtol` reads the decimal of a number that fits a `long`. */
  lemma StrtolOfDecimal(n: nat)
    requires n <= LONG_MAX
    ensures Strtol(Numerals.Decimal(n)) == n
  {
    hide Strtol, Numerals.Decimal;
    StrtolIs("", "", n, "");
    var s := Numerals.Decimal(n);
    assert "" + "" + s + "" == s;
  }

  // ---------------------------------------------------------------- bytes arriving in pieces

  lemma CrlfStays(a: string, b: string)
    requires CrlfIn(a) >= 0
    ensures CrlfIn(a + b) == CrlfIn(a)
  {
    var i := CrlfIn(a);
    assert CrlfAt(a + b, i);
    assert forall j :: 0 <= j < i ==> (CrlfAt(a + b, j) <==> CrlfAt(a, j));
    CrlfInIsFirst(a + b, i);
  }

  /** More bytes at the end change nothing that has been read. */
  function Extend(h: HeadResult, more: string): (h': HeadResult)
    requires h.NeedMore? ==> h.context.state != GotAll
  {
    match h
    case Complete(r, rest) => Complete(r, rest + more)
    case NeedMore(c, rest) => ReadHead(c, rest + more)
    case Refused(c, rest) => Refused(c, rest + more)
    case HeadBroken => HeadBroken
  }

  /** What a complete line does to the head: more of it is to come, it is complete, or the line is refused. */
  datatype LineStep = Next(context: Context) | Last | No(context: Context) | Undefined

  function AfterLine(c: Context, line: string): (s: LineStep)
    ensures s.Next? ==> s.context.state == ExpectHeaders
  {
    if c.state == ExpectRequestLine then
      match RequestLine(c.request, line)
      case Good(r) => Next(Context(ExpectHeaders, r))
      case Bad(r) => No(Context(ExpectRequestLine, r))
      case Broken => Undefined
    else
      var colon := Find(line, ':');
      if colon < |line| then Next(Context(ExpectHeaders, AddHeader(c.request, line, colon))) else Last
  }

  lemma HeadLine(c: Context, buf: string)
    requires (c.state == ExpectRequestLine || c.state == ExpectHeaders) && CrlfIn(buf) >= 0
    ensures var at := CrlfIn(buf);
            var rest, next := buf[at + 2..], AfterLine(c, buf[..at]);
            && (next.Next? ==> ReadHead(c, buf) == ReadHead(next.context, rest))
            && (next.Last? ==> ReadHead(c, buf) == Complete(c.request, rest))
            && (next.No? ==> ReadHead(c, buf) == Refused(next.context, buf))
            && (next.Undefined? ==> ReadHead(c, buf) == HeadBroken)
  {
    hide CrlfIn, RequestLine, Find, AddHeader;
  }

  lemma LineStays(buf: string, more: string, at: nat)
    requires at + 2 <= |buf|
    ensures (buf + more)[..at] == buf[..at] && (buf + more)[at + 2..] == buf[at + 2..] + more
  {
  }

  lemma HeadWaits(c: Context, buf: string, more: string)
    requires c.state != GotAll && (c.state == ExpectBody || CrlfIn(buf) < 0)
    ensures ReadHead(c, buf + more) == Extend(ReadHead(c, buf), more)
  {
    hide CrlfIn, RequestLine, Find, AddHeader;
  }

  lemma {:induction false} HeadExtends(c: Context, buf: string, more: string)
    requires c.state != GotAll
    ensures ReadHead(c, buf + more) == Extend(ReadHead(c, buf), more)
    decreases |buf|
  {
    hide CrlfIn, ReadHead, AfterLine;
    var at := CrlfIn(buf);
    if c.state == ExpectBody || at < 0 {
      HeadWaits(c, buf, more);
    } else {
      CrlfStays(buf, more);
      LineStays(buf, more, at);
      HeadLine(c, buf);
      HeadLine(c, buf + more);
      var next := AfterLine(c, buf[..at]);
      if next.Next? {
        HeadExtends(next.context, buf[at + 2..], more);
      }
    }
  }

  function Concat(chunks: seq<string>): (s: string) {
    if chunks == [] then "" else chunks[0] + Concat(chunks[1..])
  }

  /** The parser is called again with every piece until it has a request or refuses. What it leaves in the
      buffer and the pieces it did not get are what is left over. */
  function Feed(c: Context, buf: string, chunks: seq<string>): (p: Parsed)
    requires c.state != GotAll
    decreases |chunks|
  {
    var p := Parse(c, buf);
    if p.ParseBroken? then p
    else if p.ok && p.context.state != GotAll && chunks != [] then Feed(p.context, p.rest + chunks[0], chunks[1..])
    else p.(rest := p.rest + Concat(chunks))
  }

  datatype HeadEnd = Never | HeadEnd(request: Request, arrived: string, late: string)

  /** The request when its headers are complete, the bytes behind them that are there by then, and the
      bytes that come later. */
  function EndOfHead(c: Context, buf: string, chunks: seq<string>): (e: HeadEnd)
    requires c.state != GotAll
    decreases |chunks|
  {
    match ReadHead(c, buf)
    case Complete(r, rest) => HeadEnd(r, rest, Concat(chunks))
    case NeedMore(c', rest) =>
      if chunks == [] then Never else EndOfHead(c', rest + chunks[0], chunks[1..])
    case Refused(_, _) => Never
    case HeadBroken => Never
  }

  /** With a body to come, the number of bytes behind the headers is compared with the announced length
      once, when the headers are complete; the pieces matter when the later bytes would have changed
      the comparison. */
  predicate SameWithLateBytes(e: HeadEnd) {
    e.HeadEnd? && TakesBody(e.request) ==>
      var length := Strtol(e.request.headers[CONTENT_LENGTH]);
      |e.arrived| == length <==> |e.arrived + e.late| == length
  }

  /** Reading behind the headers at once or leaving the late bytes for later. */
  lemma BodySplit(r: Request, arrived: string, late: string)
    ensures var p := ReadBody(r, arrived);
            p.Parsed? && (p.(rest := p.rest + late) == ReadBody(r, arrived + late)
                          <==> SameWithLateBytes(HeadEnd(r, arrived, late)))
  {
    hide Strtol;
    if TakesBody(r) {
      var length := Strtol(r.headers[CONTENT_LENGTH]);
      if |arrived| == length && |arrived + late| == length {
        assert late == "" && arrived + late == arrived;
      }
    }
  }

  lemma FeedAtEnd(c: Context, buf: string, chunks: seq<string>)
    requires c.state != GotAll && ReadHead(c, buf).Complete?
    ensures var h := ReadHead(c, buf);
            var p := ReadBody(h.request, h.rest);
            Feed(c, buf, chunks) == p.(rest := p.rest + Concat(chunks))
  {
    hide ReadHead, Strtol;
  }

  lemma FeedOn(c: Context, buf: string, chunks: seq<string>)
    requires c.state != GotAll && ReadHead(c, buf).NeedMore? && chunks != []
    ensures var h := ReadHead(c, buf);
            Feed(c, buf, chunks) == Feed(h.context, h.rest + chunks[0], chunks[1..])
  {
    hide ReadHead, ReadBody;
  }

  lemma EndOn(c: Context, buf: string, chunks: seq<string>)
    requires c.state != GotAll && ReadHead(c, buf).NeedMore? && chunks != []
    ensures var h := ReadHead(c, buf);
            EndOfHead(c, buf, chunks) == EndOfHead(h.context, h.rest + chunks[0], chunks[1..])
  {
    hide ReadHead;
  }

  lemma NextChunk(rest: string, chunks: seq<string>)
    requires chunks != []
    ensures rest + Concat(chunks) == rest + chunks[0] + Concat(chunks[1..])
  {
  }

  lemma ParseAll(c: Context, buf: string, more: string)
    requires c.state != GotAll
    ensures var h := ReadHead(c, buf);
            Parse(c, buf + more) ==
            match h {
              case Complete(r, rest) => ReadBody(r, rest + more)
              case NeedMore(c', rest) => Parse(c', rest + more)
              case Refused(c', rest) => Parsed(false, c', rest + more)
              case HeadBroken => ParseBroken
            }
  {
    HeadExtends(c, buf, more);
    hide ReadHead, ReadBody;
  }

  /** However the bytes are cut into pieces, the outcome, the request and the bytes left over are those of
      parsing all of them at once, if and only if no late bytes decide about the body. */
  lemma {:induction false} SplitIndependentIff(c: Context, buf: string, chunks: seq<string>)
    requires c.state != GotAll
    ensures Feed(c, buf, chunks) == Parse(c, buf + Concat(chunks)) <==> SameWithLateBytes(EndOfHead(c, buf, chunks))
    decreases |chunks|
  {
    var h := ReadHead(c, buf);
    ParseAll(c, buf, Concat(chunks));
    hide ReadHead, ReadBody, SameWithLateBytes;
    match h
    case Complete(r, arrived) =>
      FeedAtEnd(c, buf, chunks);
      BodySplit(r, arrived, Concat(chunks));
    case NeedMore(c', rest) =>
      if chunks == [] {
        NothingLate();
        assert rest + "" == rest && buf + "" == buf;
      } else {
        FeedOn(c, buf, chunks);
        EndOn(c, buf, chunks);
        NextChunk(rest, chunks);
        hide Feed, Parse, EndOfHead, Concat;
        SplitIndependentIff(c', rest + chunks[0], chunks[1..]);
      }
    case _ => NothingLate();
  }

  lemma NothingLate()
    ensures SameWithLateBytes(Never)
  {
  }

  lemma {:induction false} EndOfHeadIs(c: Context, buf: string, chunks: seq<string>)
    requires c.state != GotAll
    ensures var e, h := EndOfHead(c, buf, chunks), ReadHead(c, buf + Concat(chunks));
            if e.Never? then !h.Complete? else h == Complete(e.request, e.arrived + e.late)
    decreases |chunks|
  {
    HeadExtends(c, buf, Concat(chunks));
    hide ReadHead;
    match ReadHead(c, buf)
    case NeedMore(c', rest) =>
      if chunks == [] {
        assert rest + "" == rest && buf + "" == buf;
      } else {
        EndOn(c, buf, chunks);
        NextChunk(rest, chunks);
        hide EndOfHead, Concat;
        EndOfHeadIs(c', rest + chunks[0], chunks[1..]);
      }
    case _ =>
  }

  /** Requests without a body, and those that announce no length, may come in any pieces. */
  lemma BodylessSplit(c: Context, buf: string, chunks: seq<string>)
    requires c.state != GotAll
    requires var h := ReadHead(c, buf + Concat(chunks)); h.Complete? ==> !TakesBody(h.request)
    ensures Feed(c, buf, chunks) == Parse(c, buf + Concat(chunks))
  {
    EndOfHeadIs(c, buf, chunks);
    SplitIndependentIff(c, buf, chunks);
    hide ReadHead, Feed, Parse, EndOfHead, TakesBody;
  }

  // ---------------------------------------------------------------- reading back what was sent

  datatype Header = Header(name: string, before: string, value: string, after: string)

  function HeaderLine(h: Header): (line: string) {
    h.name + ":" + (h.before + h.value + h.after)
  }

  /** White space may stand around the value; the line has no line end of its own. */
  predicate WellFormedHeader(h: Header) {
    && ':' !in h.name
    && AllSpace(h.before) && AllSpace(h.after) && Trimmed(h.value)
    && CrlfIn(HeaderLine(h)) < 0
  }

  predicate WellFormedHeaders(hs: seq<Header>) {
    forall i :: 0 <= i < |hs| ==> WellFormedHeader(hs[i])
  }

  /** The lines of the headers, and the line that ends them: any without a colon. */
  function RenderHeaders(hs: seq<Header>, last: string): (s: string) {
    if hs == [] then last + "\r\n" else HeaderLine(hs[0]) + "\r\n" + RenderHeaders(hs[1..], last)
  }

  predicate EndsHeaders(last: string) {
    ':' !in last && CrlfIn(last) < 0
  }

  /** Of two headers with one name the later counts. */
  function HeaderMap(m: map<string, string>, hs: seq<Header>): (m': map<string, string>)
    decreases |hs|
  {
    if hs == [] then m else HeaderMap(m[hs[0].name := hs[0].value], hs[1..])
  }

  /** A request without its body. */
  datatype RequestHead = RequestHead(
    token: string,
    first: char,
    path: string,
    query: string,
    version: string,
    headers: seq<Header>,
    last: string)

  function FirstLineOf(h: RequestHead): (line: string) {
    h.token + " " + ([h.first] + h.path + h.query) + " " + h.version
  }

  predicate WellFormedHead(h: RequestHead) {
    && IsRequestLine(FirstLineOf(h), h.token, h.first, h.path, h.query, h.version)
    && VersionOf(h.version) != Unknown && CrlfIn(FirstLineOf(h)) < 0
    && WellFormedHeaders(h.headers) && EndsHeaders(h.last)
  }

  function Render(h: RequestHead): (s: string) {
    FirstLineOf(h) + "\r\n" + RenderHeaders(h.headers, h.last)
  }

  function RequestOf(h: RequestHead): (r: Request) {
    Request(MethodOf(h.token), VersionOf(h.version), h.path, h.query, HeaderMap(map[], h.headers), "")
  }

  function RenderHead(m: Method, path: string, query: string, v: Version, hs: seq<Header>): (s: string) {
    RenderRequestLine(m, path, query, v) + "\r\n" + RenderHeaders(hs, "")
  }

  lemma NoEarlierEnd(line: string, rest: string, j: nat)
    requires CrlfIn(line) < 0 && j < |line|
    ensures !CrlfAt(line + "\r\n" + rest, j)
  {
    assert !CrlfAt(line, j);
  }

  lemma LineSlices(line: string, rest: string)
    ensures var s := line + "\r\n" + rest;
            s[..|line|] == line && s[|line| + 2..] == rest && CrlfAt(s, |line|)
  {
  }

  /** A line without a line end of its own ends where its line end is put. */
  lemma LineEnds(line: string, rest: string)
    requires CrlfIn(line) < 0
    ensures var s := line + "\r\n" + rest;
            CrlfIn(s) == |line| && s[..|line|] == line && s[|line| + 2..] == rest
  {
    hide CrlfIn, CrlfAt;
    var s := line + "\r\n" + rest;
    LineSlices(line, rest);
    forall j | 0 <= j < |line|
      ensures !CrlfAt(s, j)
    {
      NoEarlierEnd(line, rest, j);
    }
    CrlfInIsFirst(s, |line|);
  }

  lemma HeaderRoundTrip(r: Request, h: Header)
    requires WellFormedHeader(h)
    ensures var line := HeaderLine(h);
            && Find(line, ':') == |h.name| < |line|
            && AddHeader(r, line, |h.name|) == r.(headers := r.headers[h.name := h.value])
  {
    var raw := h.before + h.value + h.after;
    var line := HeaderLine(h);
    assert line == h.name + [':'] + raw;
    FindAfter(h.name, ':', raw);
    TrimUndoesPadding(h.before, h.value, h.after);
    assert line[..|h.name|] == h.name && line[|h.name| + 1..] == raw;
  }

  lemma LastLine(r: Request, last: string, behind: string)
    requires EndsHeaders(last)
    ensures ReadHead(Context(ExpectHeaders, r), last + "\r\n" + behind) == Complete(r, behind)
  {
    LineEnds(last, behind);
    FindNone(last, ':');
  }

  lemma NextHeader(r: Request, h: Header, more: string)
    requires WellFormedHeader(h)
    ensures ReadHead(Context(ExpectHeaders, r), HeaderLine(h) + "\r\n" + more) ==
            ReadHead(Context(ExpectHeaders, r.(headers := r.headers[h.name := h.value])), more)
  {
    LineEnds(HeaderLine(h), more);
    HeaderRoundTrip(r, h);
    hide CrlfIn, Find, HeaderLine, AddHeader;
  }

  lemma Associate(a: string, b: string, c: string)
    ensures a + b + c == a + (b + c)
  {
  }

  lemma {:induction false} HeadersRoundTrip(r: Request, hs: seq<Header>, last: string, behind: string)
    requires WellFormedHeaders(hs) && EndsHeaders(last)
    ensures ReadHead(Context(ExpectHeaders, r), RenderHeaders(hs, last) + behind) ==
            Complete(r.(headers := HeaderMap(r.headers, hs)), behind)
    decreases |hs|
  {
    hide ReadHead, EndsHeaders, HeaderLine, WellFormedHeader;
    if hs == [] {
      LastLine(r, last, behind);
    } else {
      var more := RenderHeaders(hs[1..], last);
      Associate(HeaderLine(hs[0]) + "\r\n", more, behind);
      NextHeader(r, hs[0], more + behind);
      HeadersRoundTrip(r.(headers := r.headers[hs[0].name := hs[0].value]), hs[1..], last, behind);
    }
  }

  lemma FirstLine(h: RequestHead, more: string)
    requires WellFormedHead(h)
    ensures ReadHead(NEW_CONTEXT, FirstLineOf(h) + "\r\n" + more) ==
            ReadHead(Context(ExpectHeaders, RequestOf(h).(headers := map[])), more)
  {
    LineEnds(FirstLineOf(h), more);
    RequestLineIs(NO_REQUEST, h.token, h.first, h.path, h.query, h.version);
    hide CrlfIn, RequestLine, MethodOf, HeaderMap;
  }

  /** Whatever has the form of a head is read as one. */
  lemma HeadIsRead(h: RequestHead, behind: string)
    requires WellFormedHead(h)
    ensures ReadHead(NEW_CONTEXT, Render(h) + behind) == Complete(RequestOf(h), behind)
  {
    hide ReadHead, RenderHeaders, FirstLineOf, HeaderMap, CrlfIn;
    FirstLine(h, RenderHeaders(h.headers, h.last) + behind);
    Associate(FirstLineOf(h) + "\r\n", RenderHeaders(h.headers, h.last), behind);
    HeadersRoundTrip(RequestOf(h).(headers := map[]), h.headers, h.last, behind);
  }

  /** A well-formed request (sections 3.1.1 and 3.2 of RFC 7230) is read back: its method, path, query,
      version and headers, the values without the white space around them. */
  lemma HeadRoundTrip(m: Method, path: string, query: string, v: Version, hs: seq<Header>, behind: string)
    requires m != Invalid && v != Unknown && WellFormedTarget(path, query) && WellFormedHeaders(hs)
    requires CrlfIn(RenderRequestLine(m, path, query, v)) < 0
    ensures ReadHead(NEW_CONTEXT, RenderHead(m, path, query, v, hs) + behind) ==
            Complete(Request(m, v, path, query, HeaderMap(map[], hs), ""), behind)
  {
    var h := RequestHead(MethodName(m), '/', path, query, VersionName(v), hs, "");
    NoSpaceInNames(m);
    MethodByPrefix(MethodName(m), m);
    assert FirstLineOf(h) == RenderRequestLine(m, path, query, v);
    assert CrlfIn("") == -1;
    hide ReadHead, RenderHeaders, HeaderMap, CrlfIn, MethodOf, MethodName, FirstLineOf, RenderRequestLine;
    HeadIsRead(h, behind);
  }

  // ---------------------------------------------------------------- what is accepted

  /** Before the first line end there is none. */
  lemma LineBefore(buf: string)
    requires CrlfIn(buf) >= 0
    ensures var at := CrlfIn(buf);
            CrlfIn(buf[..at]) < 0 && buf == buf[..at] + "\r\n" + buf[at + 2..]
  {
    var at := CrlfIn(buf);
    forall j | 0 <= j < at
      ensures !CrlfAt(buf[..at], j)
    {
      assert !CrlfAt(buf, j);
    }
    CrlfInIsNone(buf[..at]);
    assert buf[at] == '\r' && buf[at + 1] == '\n';
    hide CrlfIn;
    assert buf == buf[..at] + [buf[at], buf[at + 1]] + buf[at + 2..];
  }

  /** A line with a colon is a header. */
  lemma HeaderOf(line: string) returns (h: Header)
    requires ':' in line && CrlfIn(line) < 0
    ensures WellFormedHeader(h) && HeaderLine(h) == line
  {
    hide CrlfIn, Trim;
    var colon := Find(line, ':');
    FoundParts(line, ':');
    hide Find;
    var raw := line[colon + 1..];
    var before, after := TrimSplits(raw);
    h := Header(line[..colon], before, Trim(raw), after);
    assert h.name + ":" + raw == h.name + [':'] + raw;
  }

  lemma LineIsThere(r: Request, buf: string)
    requires ReadHead(Context(ExpectHeaders, r), buf).Complete?
    ensures CrlfIn(buf) >= 0
  {
    hide CrlfIn;
  }

  lemma {:induction false} HeadersRead(r: Request, buf: string) returns (hs: seq<Header>, last: string)
    requires ReadHead(Context(ExpectHeaders, r), buf).Complete?
    ensures WellFormedHeaders(hs) && EndsHeaders(last)
    ensures var h := ReadHead(Context(ExpectHeaders, r), buf);
            buf == RenderHeaders(hs, last) + h.rest && h.request == r.(headers := HeaderMap(r.headers, hs))
    decreases |buf|
  {
    hide ReadHead, CrlfIn, HeaderLine, WellFormedHeader;
    LineIsThere(r, buf);
    LineBefore(buf);
    var at := CrlfIn(buf);
    var line, rest := buf[..at], buf[at + 2..];
    if ':' in line {
      var h := HeaderOf(line);
      NextHeader(r, h, rest);
      hide EndsHeaders;
      var r1 := r.(headers := r.headers[h.name := h.value]);
      var more;
      more, last := HeadersRead(r1, rest);
      hs := [h] + more;
      assert hs[1..] == more;
      Associate(line + "\r\n", RenderHeaders(more, last), ReadHead(Context(ExpectHeaders, r1), rest).rest);
    } else {
      hs, last := [], line;
      LastLine(r, line, rest);
    }
  }

  /** Whatever is read as a head has the form of one. */
  lemma HeadWasRendered(buf: string) returns (h: RequestHead)
    requires ReadHead(NEW_CONTEXT, buf).Complete?
    ensures WellFormedHead(h)
    ensures ReadHead(NEW_CONTEXT, buf) == Complete(RequestOf(h), ReadHead(NEW_CONTEXT, buf).rest)
    ensures buf == Render(h) + ReadHead(NEW_CONTEXT, buf).rest
  {
    var at := CrlfIn(buf);
    LineBefore(buf);
    HeadLine(NEW_CONTEXT, buf);
    var line, more := buf[..at], buf[at + 2..];
    var first := FirstLineRead(line);
    hide ReadHead, CrlfIn, RequestLine, MethodOf, HeaderMap, RenderHeaders, FirstLineOf;
    FirstLine(first, more);
    var r := RequestOf(first).(headers := map[]);
    var hs, last := HeadersRead(r, more);
    h := first.(headers := hs, last := last);
    SameFirstLine(first, h);
    Associate(line + "\r\n", RenderHeaders(hs, last), ReadHead(NEW_CONTEXT, buf).rest);
  }

  lemma SameFirstLine(a: RequestHead, b: RequestHead)
    requires b == a.(headers := b.headers, last := b.last)
    ensures FirstLineOf(a) == FirstLineOf(b)
  {
  }

  lemma FirstLineRead(line: string) returns (h: RequestHead)
    requires RequestLine(NO_REQUEST, line).Good? && CrlfIn(line) < 0
    ensures WellFormedHead(h) && FirstLineOf(h) == line
  {
    RequestLineGoodIff(NO_REQUEST, line);
    var token, first, path, query, version :| IsRequestLine(line, token, first, path, query, version)
                                              && VersionOf(version) != Unknown;
    h := RequestHead(token, first, path, query, version, [], "");
    assert CrlfIn("") == -1;
  }

  ghost predicate IsHead(buf: string, r: Request, rest: string) {
    exists h: RequestHead :: WellFormedHead(h) && buf == Render(h) + rest && r == RequestOf(h)
  }

  /** The request line and the headers are complete if and only if the bytes have their form. */
  lemma HeadIff(buf: string, r: Request, rest: string)
    ensures ReadHead(NEW_CONTEXT, buf) == Complete(r, rest) <==> IsHead(buf, r, rest)
  {
    hide ReadHead, Render, RequestOf, WellFormedHead;
    forall h: RequestHead | WellFormedHead(h) && buf == Render(h) + rest && r == RequestOf(h)
      ensures ReadHead(NEW_CONTEXT, buf) == Complete(r, rest)
    {
      HeadIsRead(h, rest);
    }
    if ReadHead(NEW_CONTEXT, buf) == Complete(r, rest) {
      var h := HeadWasRendered(buf);
    }
  }

  /** The buffer starts with a complete line that is not a request line. */
  ghost predicate BadFirstLine(buf: string) {
    CrlfIn(buf) >= 0 && var line := buf[..CrlfIn(buf)]; !Acceptable(line) && !TargetMissing(line)
  }

  lemma {:induction false} HeadersNotRefused(r: Request, buf: string)
    ensures var h := ReadHead(Context(ExpectHeaders, r), buf); h.Complete? || h.NeedMore?
    decreases |buf|
  {
    if CrlfIn(buf) >= 0 {
      var at := CrlfIn(buf);
      HeadLine(Context(ExpectHeaders, r), buf);
      var next := AfterLine(Context(ExpectHeaders, r), buf[..at]);
      hide ReadHead, CrlfIn, AddHeader;
      if next.Next? {
        HeadersNotRefused(next.context.request, buf[at + 2..]);
      }
    }
  }

  /** A first line is refused if and only if it is complete and not a request line, and then it stays in the
      buffer. */
  lemma RefusedIff(buf: string)
    ensures ReadHead(NEW_CONTEXT, buf).Refused? <==> BadFirstLine(buf)
    ensures BadFirstLine(buf) ==> ReadHead(NEW_CONTEXT, buf).rest == buf
  {
    hide ReadHead, CrlfIn, RequestLine, Acceptable, TargetMissing, Find, AddHeader;
    var at := CrlfIn(buf);
    if at < 0 {
      NoLineYet(buf);
    } else {
      HeadLine(NEW_CONTEXT, buf);
      RequestLineGoodIff(NO_REQUEST, buf[..at]);
      var next := AfterLine(NEW_CONTEXT, buf[..at]);
      if next.Next? {
        HeadersNotRefused(next.context.request, buf[at + 2..]);
      }
    }
  }

  lemma NoLineYet(buf: string)
    requires CrlfIn(buf) < 0
    ensures ReadHead(NEW_CONTEXT, buf) == NeedMore(NEW_CONTEXT, buf)
  {
    hide CrlfIn;
  }

  /** The request, of the head `r0`, that is there when exactly `behind` has come after the head. */
  predicate Completes(r0: Request, behind: string, r: Request, rest: string) {
    if r0.verb != Post && r0.verb != Put then r == r0 && rest == behind
    else
      && CONTENT_LENGTH in r0.headers && r0.headers[CONTENT_LENGTH] != ""
      && Strtol(r0.headers[CONTENT_LENGTH]) == |behind|
      && r == r0.(body := behind) && rest == ""
  }

  /** The parser has a request if and only if the bytes have the form of one, and it is that one. */
  lemma AcceptedIff(buf: string, r: Request, rest: string)
    ensures Parse(NEW_CONTEXT, buf) == Parsed(true, Context(GotAll, r), rest) <==>
            exists r0, behind :: IsHead(buf, r0, behind) && Completes(r0, behind, r, rest)
  {
    hide ReadHead, IsHead, Strtol;
    forall r0, behind | IsHead(buf, r0, behind) && Completes(r0, behind, r, rest)
      ensures Parse(NEW_CONTEXT, buf) == Parsed(true, Context(GotAll, r), rest)
    {
      HeadIff(buf, r0, behind);
    }
    var h := ReadHead(NEW_CONTEXT, buf);
    if h.Complete? {
      HeadIff(buf, h.request, h.rest);
    }
  }

  /** The head is there and announces a body, but not as many bytes as have come. */
  predicate BodyMissing(r0: Request, behind: string) {
    && (r0.verb == Post || r0.verb == Put)
    && (CONTENT_LENGTH !in r0.headers || r0.headers[CONTENT_LENGTH] == ""
        || Strtol(r0.headers[CONTENT_LENGTH]) != |behind|)
  }

  /** The parser refuses if and only if the first line is not a request line, or the head is there and the body
      is not, or not it alone. */
  lemma ParseRefusesIff(buf: string)
    ensures var p := Parse(NEW_CONTEXT, buf);
            && (p.Parsed? && !p.ok <==>
                  BadFirstLine(buf) || exists r0, behind :: IsHead(buf, r0, behind) && BodyMissing(r0, behind))
            && (BadFirstLine(buf) ==> p.rest == buf)
  {
    hide ReadHead, IsHead, Strtol, BadFirstLine;
    RefusedIff(buf);
    forall r0, behind | IsHead(buf, r0, behind)
      ensures ReadHead(NEW_CONTEXT, buf) == Complete(r0, behind)
    {
      HeadIff(buf, r0, behind);
    }
    var h := ReadHead(NEW_CONTEXT, buf);
    if h.Complete? {
      HeadIff(buf, h.request, h.rest);
    }
  }

  /** Without a body what follows the headers is left in the buffer; with one it must be all there, and
      nothing else with it. */
  lemma RequestRoundTrip(m: Method, path: string, query: string, v: Version, hs: seq<Header>, behind: string)
    requires m != Invalid && v != Unknown && WellFormedTarget(path, query) && WellFormedHeaders(hs)
    requires CrlfIn(RenderRequestLine(m, path, query, v)) < 0
    ensures var r := Request(m, v, path, query, HeaderMap(map[], hs), "");
            var p := Parse(NEW_CONTEXT, RenderHead(m, path, query, v, hs) + behind);
            && (m != Post && m != Put ==> p == Parsed(true, Context(GotAll, r), behind))
            && (m == Post || m == Put ==>
                  if TakesBody(r) && |behind| == Strtol(r.headers[CONTENT_LENGTH])
                  then p == Parsed(true, Context(GotAll, r.(body := behind)), "")
                  else p == Parsed(false, Context(ExpectBody, r), behind))
  {
    HeadRoundTrip(m, path, query, v, hs, behind);
    hide ReadHead, Strtol, RenderHead, HeaderMap;
  }

  lemma {:induction false} HeaderMapLast(m: map<string, string>, hs: seq<Header>, h: Header)
    ensures HeaderMap(m, hs + [h]) == HeaderMap(m, hs)[h.name := h.value]
    decreases |hs|
  {
    if hs == [] {
      assert hs + [h] == [h];
      assert HeaderMap(m[h.name := h.value], []) == m[h.name := h.value];
    } else {
      HeaderMapLast(m[hs[0].name := hs[0].value], hs[1..], h);
      assert (hs + [h])[1..] == hs[1..] + [h];
    }
  }

  function LengthHeader(length: nat): (h: Header) {
    Header(CONTENT_LENGTH, " ", Numerals.Decimal(length), "")
  }

  lemma DecimalChars(n: nat)
    ensures var s := Numerals.Decimal(n); s != "" && forall i :: 0 <= i < |s| ==> '0' <= s[i] <= '9'
  {
    var s := Numerals.Decimal(n);
    Numerals.NumeralRoundTrip(n, 10);
    hide Numerals.IsDigit, Numerals.ValueOf, Numerals.Numeral;
    forall i | 0 <= i < |s|
      ensures '0' <= s[i] <= '9'
    {
      DigitChar(s[i]);
    }
  }

  lemma NoReturnInLine(h: Header)
    requires '\r' !in h.name && '\r' !in h.before && '\r' !in h.value && '\r' !in h.after
    ensures CrlfIn(HeaderLine(h)) < 0
  {
    hide CrlfIn;
    NoReturnNoCrlf(HeaderLine(h));
  }

  lemma LengthHeaderIsWellFormed(length: nat)
    ensures WellFormedHeader(LengthHeader(length)) && Numerals.Decimal(length) != ""
  {
    hide Numerals.Decimal, CrlfIn, HeaderLine;
    DecimalChars(length);
    assert '\r' !in CONTENT_LENGTH && ':' !in CONTENT_LENGTH;
    NoReturnInLine(LengthHeader(length));
  }

  /** A request that announces the length of its body is read back with the body, when all of it is there. */
  lemma BodyRoundTrip(m: Method, path: string, query: string, v: Version, hs: seq<Header>, body: string)
    requires (m == Post || m == Put) && v != Unknown && WellFormedTarget(path, query) && WellFormedHeaders(hs)
    requires CrlfIn(RenderRequestLine(m, path, query, v)) < 0 && |body| <= LONG_MAX
    ensures var hs' := hs + [LengthHeader(|body|)];
            Parse(NEW_CONTEXT, RenderHead(m, path, query, v, hs') + body) ==
            Parsed(true, Context(GotAll, Request(m, v, path, query, HeaderMap(map[], hs'), body)), "")
  {
    var h := LengthHeader(|body|);
    LengthHeaderIsWellFormed(|body|);
    StrtolOfDecimal(|body|);
    hide Numerals.Decimal, Strtol, CrlfIn, RenderRequestLine, RenderHead, Parse, WellFormedHeader, HeaderMap;
    HeaderMapLast(map[], hs, h);
    RequestRoundTrip(m, path, query, v, hs + [h], body);
  }

  /** A request with a body may not come in pieces: here its body comes after its headers. */
  lemma BodyInPiecesFails()
    ensures var head := RenderHead(Post, "form", "", Http11, [] + [LengthHeader(2)]);
            && Parse(NEW_CONTEXT, head + Concat(["hi"])).Parsed?
            && Parse(NEW_CONTEXT, head + Concat(["hi"])).ok
            && Feed(NEW_CONTEXT, head, ["hi"]) != Parse(NEW_CONTEXT, head + Concat(["hi"]))
  {
    hide ReadHead, Strtol, RenderHead, HeaderMap, RenderRequestLine, CrlfIn, Numerals.Decimal, WellFormedHeader, Parse;
    hide Feed, Concat, EndOfHead, LengthHeader;
    var hs := [] + [LengthHeader(2)];
    var head := RenderHead(Post, "form", "", Http11, hs);
    FormLine();
    OneChunk("hi");
    LengthHeaderIsWellFormed(2);
    BodyRoundTrip(Post, "form", "", Http11, [], "hi");
    HeadRoundTrip(Post, "form", "", Http11, hs, "");
    assert head + "" == head;
    LateBody(head, Request(Post, Http11, "form", "", HeaderMap(map[], hs), ""), "hi");
    SplitIndependentIff(NEW_CONTEXT, head, ["hi"]);
  }

  lemma OneChunk(s: string)
    ensures Concat([s]) == s
  {
    assert Concat([s]) == s + Concat([]);
  }

  /** All of an announced body is late. */
  lemma LateBody(head: string, r: Request, body: string)
    requires ReadHead(NEW_CONTEXT, head) == Complete(r, "") && body != ""
    requires r == Request(Post, Http11, "form", "", HeaderMap(map[], [] + [LengthHeader(|body|)]), "")
    requires |body| <= LONG_MAX
    ensures !SameWithLateBytes(EndOfHead(NEW_CONTEXT, head, [body]))
  {
    HeaderMapLast(map[], [], LengthHeader(|body|));
    LengthHeaderIsWellFormed(|body|);
    StrtolOfDecimal(|body|);
    OneChunk(body);
    hide ReadHead, Strtol, HeaderMap, Numerals.Decimal, WellFormedHeader, Concat;
    assert "" + body == body;
  }

  lemma FormLine()
    ensures WellFormedTarget("form", "") && CrlfIn(RenderRequestLine(Post, "form", "", Http11)) < 0
  {
    var name, version := MethodName(Post), VersionName(Http11);
    assert '\r' !in name && '\r' !in version;
    NoReturnNoCrlf(name + " " + ("/" + "form" + "") + " " + version);
  }

  lemma NoReturnNoCrlf(s: string)
    requires '\r' !in s
    ensures CrlfIn(s) == -1
  {
    forall j | 0 <= j < |s|
      ensures !CrlfAt(s, j)
    {
      assert s[j] in s;
    }
    CrlfInIsNone(s);
  }

  // ---------------------------------------------------------------- the object

  /** One turn of the loop. */
  function Turn(c: Context, buf: string): (p: Parsed)
    requires c.state != GotAll
  {
    var at := CrlfIn(buf);
    if c.state == ExpectBody then ReadBody(c.request, buf)
    else if at < 0 then Parsed(true, c, buf)
    else if c.state == ExpectRequestLine then
      match RequestLine(c.request, buf[..at])
      case Good(r) => Parse(Context(ExpectHeaders, r), buf[at + 2..])
      case Bad(r) => Parsed(false, Context(ExpectRequestLine, r), buf)
      case Broken => ParseBroken
    else
      var colon := Find(buf[..at], ':');
      if colon < at then Parse(Context(ExpectHeaders, AddHeader(c.request, buf[..at], colon)), buf[at + 2..])
      else Parse(Context(ExpectBody, c.request), buf[at + 2..])
  }

  lemma ParseTurns(c: Context, buf: string)
    requires c.state != GotAll
    ensures Parse(c, buf) == Turn(c, buf)
  {
    hide CrlfIn, RequestLine, Find, AddHeader, ReadBody;
  }

  class HttpContext {
    var state: State
    // of `request_`
    var verb: Method
    var version: Version
    var path: string
    var query: string
    var headers: map<string, string>
    var body: string

    ghost function View(): (c: Context)
      reads this
    {
      Context(state, Request(verb, version, path, query, headers, body))
    }

    constructor ()
      ensures View() == NEW_CONTEXT
    {
      state := ExpectRequestLine;
      verb, version, path, query, headers, body := Invalid, Unknown, "", "", map[], "";
    }

    /** The body stays: `swap` leaves it out. */
    method Reset()
      modifies this
      ensures View() == Context(ExpectRequestLine, NO_REQUEST.(body := old(body)))
    {
      state := ExpectRequestLine;
      verb, version, path, query, headers := Invalid, Unknown, "", "", map[];
    }

    method StoreHeader(line: string, colon: nat)
      requires colon < |line|
      modifies this`headers
      ensures View() == old(View()).(request := AddHeader(old(View()).request, line, colon))
    {
      var field := line[..colon];
      var start := colon + 1;
      while start < |line| && IsSpace(line[start])
        invariant colon + 1 <= start <= |line|
        invariant TrimLeft(line[start..]) == TrimLeft(line[colon + 1..])
      {
        assert line[start..][1..] == line[start + 1..];
        start := start + 1;
      }
      var value := line[start..];
      while value != "" && IsSpace(value[|value| - 1])
        invariant TrimRight(value) == TrimRight(line[start..])
        decreases |value|
      {
        value := value[..|value| - 1];
      }
      headers := headers[field := value];
    }

    method ProcessRequestLine(line: string) returns (succeed: bool)
      requires RequestLine(View().request, line) != Broken
      modifies this
      ensures state == old(state)
      ensures var result := RequestLine(old(View()).request, line);
              succeed == result.Good? && View().request == result.request
      ensures old(verb) == Invalid ==> (succeed <==> Acceptable(line))
    {
      hide RequestLine, Acceptable, TargetMissing;
      if verb == Invalid {
        RequestLineGoodIff(View().request, line);
      }
      succeed := ReadRequestLine(line);
    }

    method ReadRequestLine(line: string) returns (succeed: bool)
      requires RequestLine(View().request, line) != Broken
      modifies this
      ensures state == old(state)
      ensures var result := RequestLine(old(View()).request, line);
              succeed == result.Good? && View().request == result.request
    {
      hide MethodOf;
      succeed := false;
      var space := Find(line, ' ');
      if space != |line| {
        verb := MethodOf(line[..space]);
        var rest := line[space + 1..];
        space := Find(rest, ' ');
        if space != |rest| {
          var target := rest[..space];
          var question := Find(target, '?');
          if question != |target| {
            path := target[1..question];
            query := target[question..];
          } else {
            path := target[1..];
          }
          var end := rest[space + 1..];
          succeed := |end| == 8 && end[..7] == "HTTP/1.";
          if succeed {
            if end[7] == '1' {
              version := Http11;
            } else if end[7] == '0' {
              version := Http10;
            } else {
              succeed := false;
            }
          }
        }
      }
    }

    method ParseRequest(buf: Buffer) returns (ok: bool)
      requires buf.Valid() && state != GotAll && Parse(View(), buf.Contents()) != ParseBroken
      modifies this, buf
      ensures buf.Valid()
      ensures Parsed(ok, View(), buf.Contents()) == Parse(old(View()), old(buf.Contents()))
    {
      hide Parse, RequestLine, AddHeader, CrlfIn, Strtol;
      ok := true;
      var hasMore := true;
      ghost var p := Parse(View(), buf.Contents());
      while hasMore
        invariant buf.Valid() && p != ParseBroken
        invariant hasMore ==> ok && state != GotAll && Parse(View(), buf.Contents()) == p
        invariant !hasMore ==> Parsed(ok, View(), buf.Contents()) == p
        decreases hasMore, |buf.Contents()|
      {
        ParseTurns(View(), buf.Contents());
        if state == ExpectBody {
          ok := TakeBody(buf);
          hasMore := false;
        } else {
          var crlf := buf.FindCrlf();
          if crlf < 0 {
            hasMore := false;
          } else if state == ExpectRequestLine {
            ok := ProcessRequestLine(buf.Contents()[..crlf]);
            if ok {
              buf.Retrieve(crlf + 2);
              state := ExpectHeaders;
            } else {
              hasMore := false;
            }
          } else {
            var line := buf.Contents()[..crlf];
            var colon := Find(line, ':');
            if colon != |line| {
              StoreHeader(line, colon);
            } else {
              state := ExpectBody;
            }
            buf.Retrieve(crlf + 2);
          }
        }
      }
    }

    method TakeBody(buf: Buffer) returns (ok: bool)
      requires buf.Valid() && state == ExpectBody
      modifies this, buf
      ensures buf.Valid()
      ensures Parsed(ok, View(), buf.Contents()) == ReadBody(old(View()).request, old(buf.Contents()))
    {
      hide Strtol;
      ok := true;
      if verb != Post && verb != Put {
        state := GotAll;
      } else {
        var field := if CONTENT_LENGTH in headers then headers[CONTENT_LENGTH] else "";
        if field == "" {
          ok := false;
        } else {
          var len := Strtol(field);
          if |buf.Contents()| != len {
            ok := false;
          } else {
            state := GotAll;
            body := buf.Contents()[..len];
            buf.Retrieve(len);
          }
        }
      }
    }
  }
}

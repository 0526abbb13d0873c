/** Two hand-rolled scanners that look for the brace closing a JSON object: the framing
    check of the Go decoder and the stream splitter of the Python script. Text outside
    strings holds no backslash, and inside a string a backslash escapes the next
    character (section 7 of RFC 8259). */
module BraceScan {
  import opened Wrappers

  // ---------------------------------------------------------------- object texts

  /** The inside of a string literal, up to its closing quote. */
  datatype Quoted = EndQuote | Ch(c: char, q: Quoted) | Esc(e: char, q: Quoted)

  /** What stands between two braces: any characters, strings and braced bodies. */
  datatype Body = Nil | Plain(c: char, tail: Body) | Str(q: Quoted, tail: Body) | Braces(inner: Body, tail: Body)

  predicate ValidQuoted(q: Quoted) {
    match q
    case EndQuote => true
    case Ch(c, rest) => c != '"' && c != '\\' && ValidQuoted(rest)
    case Esc(_, rest) => ValidQuoted(rest)
  }

  predicate ValidBody(b: Body) {
    match b
    case Nil => true
    case Plain(c, tail) => c !in "{}\"\\" && ValidBody(tail)
    case Str(q, tail) => ValidQuoted(q) && ValidBody(tail)
    case Braces(inner, tail) => ValidBody(inner) && ValidBody(tail)
  }

  function QuotedText(q: Quoted): (t: string)
    ensures |t| > 0
  {
    match q
    case EndQuote => "\""
    case Ch(c, rest) => [c] + QuotedText(rest)
    case Esc(e, rest) => ['\\', e] + QuotedText(rest)
  }

  function BodyText(b: Body): string {
    match b
    case Nil => ""
    case Plain(c, tail) => [c] + BodyText(tail)
    case Str(q, tail) => "\"" + QuotedText(q) + BodyText(tail)
    case Braces(inner, tail) => "{" + BodyText(inner) + "}" + BodyText(tail)
  }

  /** A JSON object text, as far as its braces and strings go. */
  function ObjectText(b: Body): (t: string)
    ensures |t| >= 2 && t[0] == '{'
  {
    "{" + BodyText(b) + "}"
  }

  // ------------------------------------------------------------------ the Go scan

  /** Past the end of the string literal whose inside starts at `i`: the closing quote's
      position, or the end of the text. */
  function SkipString(s: string, i: nat): (j: nat)
    ensures j >= i && (j < |s| ==> s[j] == '"')
    decreases |s| - i
  {
    if i >= |s| then i
    else if s[i] == '\\' then SkipString(s, i + 2)
    else if s[i] == '"' then i
    else SkipString(s, i + 1)
  }

  function GoScan(s: string, i: nat, depth: int): (end: Option<nat>)
    ensures end.Some? ==> i < end.value <= |s|
    decreases |s| - i
  {
    if i >= |s| then None
    else if s[i] == '{' then GoScan(s, i + 1, depth + 1)
    else if s[i] == '}' then
      if depth - 1 == 0 then Some(i + 1) else GoScan(s, i + 1, depth - 1)
    else if s[i] == '"' then GoScan(s, SkipString(s, i + 1) + 1, depth)
    else GoScan(s, i + 1, depth)
  }

  datatype FramingError = EmptyContent | ExtraText | NoMatchingBrace

  predicate IsSpace(c: char) {
    c == ' ' || c == '\t' || c == '\r' || c == '\n'
  }

  function LeadingSpace(s: string, i: nat): (j: nat)
    requires i <= |s|
    ensures i <= j <= |s| && (forall k :: i <= k < j ==> IsSpace(s[k])) && (j < |s| ==> !IsSpace(s[j]))
    decreases |s| - i
  {
    if i < |s| && IsSpace(s[i]) then LeadingSpace(s, i + 1) else i
  }

  function Framing(content: string): Result<string, FramingError> {
    if content == "" then Err(EmptyContent)
    else
      var skip := LeadingSpace(content, 0);
      var trimmed := content[skip..];
      if skip > 4 || trimmed == "" || trimmed[0] != '{' then Err(ExtraText)
      else
        match GoScan(trimmed, 0, 0)
        case None => Err(NoMatchingBrace)
        case Some(end) => if end != |trimmed| then Err(ExtraText) else Ok(trimmed)
  }

  /** The inner loop of the scan: from inside a string literal to its closing quote. */
  method SkipLiteral(s: string, start: nat) returns (i: nat)
    ensures i == SkipString(s, start)
  {
    i := start;
    while i < |s|
      invariant SkipString(s, start) == SkipString(s, i)
      decreases |s| - i
    {
      if s[i] == '\\' {
        i := i + 2;
        continue;
      }
      if s[i] == '"' {
        break;
      }
      i := i + 1;
    }
  }

  method DecodeFraming(content: string) returns (r: Result<string, FramingError>)
    ensures r == Framing(content)
  {
    if |content| == 0 {
      return Err(EmptyContent);
    }
    var skip := 0;
    while skip < |content| && IsSpace(content[skip])
      invariant skip <= |content| && LeadingSpace(content, 0) == LeadingSpace(content, skip)
    {
      skip := skip + 1;
    }
    assert skip == LeadingSpace(content, 0);
    hide LeadingSpace, IsSpace;
    var trimmed := content[skip..];
    if skip > 4 {
      return Err(ExtraText);
    }
    if |trimmed| == 0 || trimmed[0] != '{' {
      return Err(ExtraText);
    }
    hide SkipString;
    var depth, end := 0, -1;
    var i := 0;
    while i < |trimmed| && end == -1
      invariant 0 <= i && (end == -1 || 0 < end <= |trimmed|)
      invariant GoScan(trimmed, 0, 0) == if end == -1 then GoScan(trimmed, i, depth) else Some(end)
      decreases |trimmed| - i, if end == -1 then 1 else 0
    {
      var b := trimmed[i];
      if b == '{' {
        depth := depth + 1;
      } else if b == '}' {
        depth := depth - 1;
        if depth == 0 {
          end := i + 1;
        }
      } else if b == '"' {
        i := SkipLiteral(trimmed, i + 1);
      }
      i := i + 1;
    }
    if end == -1 {
      return Err(NoMatchingBrace);
    }
    if end != |trimmed| {
      return Err(ExtraText);
    }
    assert trimmed[..end] == trimmed;
    r := Ok(trimmed[..end]);
  }

  // ------------------------------------------------------------- the Python split

  function PyScan(s: string, i: nat, depth: int, inStr: bool, esc: bool): (end: Option<nat>)
    ensures end.Some? ==> i < end.value <= |s|
    decreases |s| - i
  {
    if i >= |s| then None
    else if esc then PyScan(s, i + 1, depth, inStr, false)
    else if s[i] == '\\' then PyScan(s, i + 1, depth, inStr, true)
    else if s[i] == '"' then PyScan(s, i + 1, depth, !inStr, false)
    else if !inStr && s[i] == '{' then PyScan(s, i + 1, depth + 1, inStr, false)
    else if !inStr && s[i] == '}' then
      if depth - 1 == 0 then Some(i + 1) else PyScan(s, i + 1, depth - 1, inStr, false)
    else PyScan(s, i + 1, depth, inStr, false)
  }

  function Split(s: string, i: nat): seq<string>
    requires i <= |s|
    decreases |s| - i
  {
    var start := LeadingSpace(s, i);
    if start >= |s| || s[start] != '{' then []
    else
      match PyScan(s, start, 0, false, false)
      case None => []
      case Some(end) => [s[start..end]] + Split(s, end)
  }

  /** The inner loop: the end of the object that starts at `start`. */
  method CloseObject(text: string, start: nat) returns (found: bool, i: nat)
    requires start <= |text|
    ensures start <= i <= |text|
    ensures PyScan(text, start, 0, false, false) == if found then Some(i) else None
  {
    i := start;
    var depth, inStr, esc := 0, false, false;
    while i < |text|
      invariant start <= i <= |text| && PyScan(text, start, 0, false, false) == PyScan(text, i, depth, inStr, esc)
    {
      var c := text[i];
      if esc {
        esc := false;
      } else if c == '\\' {
        esc := true;
      } else if c == '"' && !esc {
        inStr := !inStr;
      } else if !inStr {
        if c == '{' {
          depth := depth + 1;
        } else if c == '}' {
          depth := depth - 1;
          if depth == 0 {
            return true, i + 1;
          }
        }
      }
      i := i + 1;
    }
    found := false;
  }

  /** The splitter of `_gather`; `modules` keeps the texts it would hand to the JSON parser. */
  method Gather(text: string) returns (modules: seq<string>)
    ensures modules == Split(text, 0)
  {
    hide PyScan;
    modules := [];
    var i, n := 0, |text|;
    while i < n
      invariant 0 <= i <= n && Split(text, 0) == modules + Split(text, i)
      decreases n - i
    {
      ghost var from := i;
      while i < n && IsSpace(text[i])
        invariant from <= i <= n && LeadingSpace(text, from) == LeadingSpace(text, i)
      {
        i := i + 1;
      }
      assert LeadingSpace(text, from) == i;
      if i >= n {
        break;
      }
      if text[i] != '{' {
        break;
      }
      var start := i;
      var found;
      found, i := CloseObject(text, start);
      if !found {
        break;
      }
      modules := modules + [text[start..i]];
    }
  }

  // -------------------------------------------------------------------- agreement

  /** Outside strings the Go scan meets no backslash before a brace or a quote. */
  predicate CleanScan(s: string, i: nat, depth: int)
    decreases |s| - i
  {
    i >= |s| ||
    if s[i] == '{' then CleanScan(s, i + 1, depth + 1)
    else if s[i] == '}' then depth - 1 == 0 || CleanScan(s, i + 1, depth - 1)
    else if s[i] == '"' then CleanScan(s, SkipString(s, i + 1) + 1, depth)
    else if s[i] == '\\' then i + 1 >= |s| || (s[i + 1] !in "{}\"" && CleanScan(s, i + 2, depth))
    else CleanScan(s, i + 1, depth)
  }

  lemma {:induction false} StringSkippedAlike(s: string, i: nat, depth: int)
    ensures PyScan(s, i, depth, true, false) == PyScan(s, SkipString(s, i) + 1, depth, false, false)
    decreases |s| - i
  {
    if i < |s| && s[i] != '"' {
      StringSkippedAlike(s, if s[i] == '\\' then i + 2 else i + 1, depth);
    }
  }

  /** The two scans stop at the same brace on any text without such a backslash. */
  lemma {:induction false} ScansAgree(s: string, i: nat, depth: int)
    requires CleanScan(s, i, depth)
    ensures PyScan(s, i, depth, false, false) == GoScan(s, i, depth)
    decreases |s| - i
  {
    if i < |s| {
      if s[i] == '"' {
        StringSkippedAlike(s, i + 1, depth);
        ScansAgree(s, SkipString(s, i + 1) + 1, depth);
      } else if s[i] == '{' {
        ScansAgree(s, i + 1, depth + 1);
      } else if s[i] == '}' {
        if depth != 1 {
          ScansAgree(s, i + 1, depth - 1);
        }
      } else if s[i] == '\\' {
        if i + 1 < |s| {
          assert GoScan(s, i + 1, depth) == GoScan(s, i + 2, depth);
          ScansAgree(s, i + 2, depth);
        }
      } else {
        ScansAgree(s, i + 1, depth);
      }
    }
  }

  /** With such a backslash they need not: only one of them lets it hide a brace. */
  lemma ScansDisagreeOutsideJson()
    ensures GoScan("{\\}}", 0, 0) == Some(3) && PyScan("{\\}}", 0, 0, false, false) == Some(4)
  {
  }

  // ------------------------------------------------ agreement on every continuation

  /** Either scan as an automaton: how deep it is, whether it is in a string and whether it
      ignores the next character; or the position after the brace it stopped at. */
  datatype Scanner = Going(depth: int, inStr: bool, esc: bool) | Stopped(at: nat)

  /** One character. Only the Python scan lets a backslash outside strings escape. */
  function Feed(python: bool, st: Scanner, c: char, i: nat): Scanner {
    match st
    case Stopped(_) => st
    case Going(depth, inStr, esc) =>
      if esc then Going(depth, inStr, false)
      else if c == '\\' then Going(depth, inStr, inStr || python)
      else if c == '"' then Going(depth, !inStr, false)
      else if inStr then st
      else if c == '{' then Going(depth + 1, false, false)
      else if c == '}' then if depth - 1 == 0 then Stopped(i + 1) else Going(depth - 1, false, false)
      else st
  }

  function After(python: bool, s: string): Scanner {
    if s == "" then Going(0, false, false) else Feed(python, After(python, s[..|s| - 1]), s[|s| - 1], |s| - 1)
  }

  function Outcome(st: Scanner): Option<nat> {
    if st.Stopped? then Some(st.at) else None
  }

  lemma AfterOne(python: bool, s: string, i: nat)
    requires i < |s|
    ensures After(python, s[..i + 1]) == Feed(python, After(python, s[..i]), s[i], i)
  {
    assert s[..i + 1][..i] == s[..i];
  }

  lemma {:induction false} StaysStopped(python: bool, s: string, i: nat)
    requires i <= |s| && After(python, s[..i]).Stopped?
    ensures After(python, s) == After(python, s[..i])
    decreases |s| - i
  {
    if i == |s| {
      assert s[..i] == s;
    } else {
      AfterOne(python, s, i);
      StaysStopped(python, s, i + 1);
    }
  }

  lemma {:induction false} PyScanIs(s: string, i: nat, depth: int, inStr: bool, esc: bool)
    requires i <= |s| && After(true, s[..i]) == Going(depth, inStr, esc)
    ensures PyScan(s, i, depth, inStr, esc) == Outcome(After(true, s))
    decreases |s| - i
  {
    if i == |s| {
      assert s[..i] == s;
    } else {
      AfterOne(true, s, i);
      var next := After(true, s[..i + 1]);
      hide After;
      if next.Stopped? {
        StaysStopped(true, s, i + 1);
      } else {
        PyScanIs(s, i + 1, next.depth, next.inStr, next.esc);
      }
    }
  }

  /** Through a string literal, to its closing quote or to the end. */
  lemma {:induction false} GoString(s: string, i: nat, depth: int)
    requires i <= |s| && After(false, s[..i]) == Going(depth, true, false)
    ensures var j := SkipString(s, i);
            if j < |s| then After(false, s[..j + 1]) == Going(depth, false, false) else After(false, s).Going?
    decreases |s| - i
  {
    if i == |s| {
      assert s[..i] == s;
    } else {
      AfterOne(false, s, i);
      if s[i] == '\\' {
        if i + 1 < |s| {
          AfterOne(false, s, i + 1);
          GoString(s, i + 2, depth);
        } else {
          assert s[..i + 1] == s;
        }
      } else if s[i] != '"' {
        GoString(s, i + 1, depth);
      }
    }
  }

  /** One character outside strings, to the Go scan. */
  lemma GoOutside(s: string, i: nat, depth: int)
    requires i < |s| && After(false, s[..i]) == Going(depth, false, false)
    ensures var next := After(false, s[..i + 1]);
            && (s[i] == '{' ==> next == Going(depth + 1, false, false))
            && (s[i] == '}' ==> next == if depth == 1 then Stopped(i + 1) else Going(depth - 1, false, false))
            && (s[i] == '"' ==> next == Going(depth, true, false))
            && (s[i] !in "{}\"" ==> next == Going(depth, false, false))
  {
    AfterOne(false, s, i);
    hide After;
  }

  lemma {:induction false} GoScanIs(s: string, i: nat, depth: int)
    requires i <= |s| && After(false, s[..i]) == Going(depth, false, false)
    ensures GoScan(s, i, depth) == Outcome(After(false, s))
    decreases |s| - i
  {
    if i == |s| {
      assert s[..i] == s;
    } else {
      GoOutside(s, i, depth);
      hide After, Feed, SkipString;
      if s[i] == '}' && depth == 1 {
        StaysStopped(false, s, i + 1);
      } else if s[i] == '"' {
        GoString(s, i + 1, depth);
        var j := SkipString(s, i + 1);
        if j < |s| {
          GoScanIs(s, j + 1, depth);
        }
      } else {
        GoScanIs(s, i + 1, if s[i] == '{' then depth + 1 else if s[i] == '}' then depth - 1 else depth);
      }
    }
  }

  lemma ScansAre(s: string)
    ensures GoScan(s, 0, 0) == Outcome(After(false, s)) && PyScan(s, 0, 0, false, false) == Outcome(After(true, s))
  {
    assert s[..0] == "";
    GoScanIs(s, 0, 0);
    PyScanIs(s, 0, 0, false, false);
  }

  lemma AfterMore(python: bool, s: string, c: char)
    ensures After(python, s + [c]) == Feed(python, After(python, s), c, |s|)
  {
    assert (s + [c])[..|s|] == s;
  }

  function Repeat(c: char, n: nat): (r: string)
    ensures |r| == n
  {
    if n == 0 then "" else Repeat(c, n - 1) + [c]
  }

  lemma {:induction false} Opens(python: bool, s: string, n: nat)
    requires After(python, s).Going? && !After(python, s).inStr && !After(python, s).esc
    ensures After(python, s + Repeat('{', n)) == Going(After(python, s).depth + n, false, false)
  {
    hide After;
    if n == 0 {
      assert s + "" == s;
    } else {
      Opens(python, s, n - 1);
      AfterMore(python, s + Repeat('{', n - 1), '{');
      assert s + Repeat('{', n) == s + Repeat('{', n - 1) + ['{'];
    }
  }

  lemma {:induction false} Closes(python: bool, s: string, n: nat)
    requires After(python, s).Going? && !After(python, s).inStr && !After(python, s).esc
    requires 0 < n <= After(python, s).depth
    ensures var depth := After(python, s).depth;
            After(python, s + Repeat('}', n)) == if n == depth then Stopped(|s| + n) else Going(depth - n, false, false)
  {
    hide After;
    if n == 1 {
      assert Repeat('}', 1) == "" + ['}'] == ['}'];
      AfterMore(python, s, '}');
    } else {
      Closes(python, s, n - 1);
      AfterMore(python, s + Repeat('}', n - 1), '}');
      assert s + Repeat('}', n) == s + Repeat('}', n - 1) + ['}'];
    }
  }

  predicate Outside(st: Scanner) {
    st.Going? && !st.inStr && !st.esc
  }

  /** Two scans still going can both be brought outside strings. */
  lemma BringOutside(t: string) returns (u: string)
    requires After(false, t).Going? && After(true, t).Going?
    ensures Outside(After(false, t + u)) && Outside(After(true, t + u))
  {
    u := "x";
    AfterMore(false, t, 'x');
    AfterMore(true, t, 'x');
    if After(false, t + u).inStr && !After(true, t + u).inStr {
      u := AddBoth(t, u, '"');
    }
    if !After(false, t + u).inStr && After(true, t + u).inStr {
      u := AddBoth(t, u, '\\');
      u := AddBoth(t, u, '"');
    }
    if After(false, t + u).inStr {
      u := AddBoth(t, u, '"');
    }
  }

  lemma AddBoth(t: string, u: string, c: char) returns (v: string)
    ensures v == u + [c]
    ensures forall python :: After(python, t + v) == Feed(python, After(python, t + u), c, |t + u|)
  {
    v := u + [c];
    assert t + v == t + u + [c];
    AfterMore(false, t + u, c);
    AfterMore(true, t + u, c);
  }

  lemma Joined(t: string, u: string, v: string)
    ensures t + (u + v) == t + u + v
  {
  }

  /** At different depths, the shallower scan can be made to stop alone. */
  lemma SeparateDepths(t: string) returns (u: string)
    requires Outside(After(false, t)) && Outside(After(true, t)) && After(false, t).depth != After(true, t).depth
    ensures Outcome(After(false, t + u)) != Outcome(After(true, t + u))
  {
    var go, py := After(false, t).depth, After(true, t).depth;
    var least := if go < py then go else py;
    var m := if least < 1 then 1 - least else 0;
    var up := Repeat('{', m);
    var down := Repeat('}', least + m);
    Opens(false, t, m);
    Opens(true, t, m);
    Closes(false, t + up, least + m);
    Closes(true, t + up, least + m);
    u := up + down;
    Joined(t, up, down);
  }

  /** At the same depth, a backslash before the closing brace does. */
  lemma SeparateByBackslash(t: string) returns (u: string)
    requires Outside(After(false, t)) && After(true, t) == After(false, t)
    ensures Outcome(After(false, t + u)) != Outcome(After(true, t + u))
  {
    var depth := After(false, t).depth;
    if depth < 1 {
      u := Repeat('{', 1 - depth);
      Opens(false, t, 1 - depth);
      Opens(true, t, 1 - depth);
    } else if depth > 1 {
      u := Repeat('}', depth - 1);
      Closes(false, t, depth - 1);
      Closes(true, t, depth - 1);
    } else {
      u := "";
      assert t + "" == t;
    }
    u := AddBoth(t, u, '\\');
    u := AddBoth(t, u, '}');
  }

  lemma Separate(t: string) returns (u: string)
    requires Outcome(After(false, t)).None? || Outcome(After(false, t)) != Outcome(After(true, t))
    ensures Outcome(After(false, t + u)) != Outcome(After(true, t + u))
  {
    hide After;
    if After(false, t).Stopped? || After(true, t).Stopped? {
      u := "";
      assert t + "" == t;
    } else {
      var u1 := BringOutside(t);
      var u2;
      if After(false, t + u1).depth != After(true, t + u1).depth {
        u2 := SeparateDepths(t + u1);
      } else {
        u2 := SeparateByBackslash(t + u1);
      }
      u := u1 + u2;
      Joined(t, u1, u2);
    }
  }

  predicate StopAlike(s: string) {
    GoScan(s, 0, 0) == PyScan(s, 0, 0, false, false)
  }

  /** The two scans stop alike on every text that begins with `t` exactly when they have
      stopped, and alike, within `t`. Anything less can be continued so that they part. */
  lemma StopAlikeWhateverFollowsIff(t: string)
    ensures (forall u: string :: StopAlike(t + u)) <==> GoScan(t, 0, 0).Some? && StopAlike(t)
  {
    ScansAre(t);
    hide GoScan, PyScan, After;
    if GoScan(t, 0, 0).Some? && StopAlike(t) {
      forall u: string
        ensures StopAlike(t + u)
      {
        assert (t + u)[..|t|] == t;
        StaysStopped(false, t + u, |t|);
        StaysStopped(true, t + u, |t|);
        ScansAre(t + u);
      }
    } else {
      var u := Separate(t);
      ScansAre(t + u);
      assert !StopAlike(t + u);
    }
  }

  /** Backslashes outside strings need not part them: here two cancel out. */
  lemma OutsideBackslashesCanCancel()
    ensures var t := "{\\{\\}}";
            GoScan(t, 0, 0) == Some(6) && StopAlike(t) && !CleanScan(t, 0, 0)
  {
    var t := "{\\{\\}}";
    assert GoScan(t, 3, 2) == GoScan(t, 4, 2) == Some(6);
    assert PyScan(t, 3, 1, false, false) == PyScan(t, 5, 1, false, false) == Some(6);
  }

  // ----------------------------------------------------------- scanning an object

  predicate At(s: string, i: nat, part: string) {
    i + |part| <= |s| && s[i..i + |part|] == part
  }

  lemma AtParts(s: string, i: nat, x: string, y: string)
    requires At(s, i, x + y)
    ensures At(s, i, x) && At(s, i + |x|, y)
  {
    assert s[i..i + |x|] == (x + y)[..|x|];
    assert s[i + |x|..i + |x| + |y|] == (x + y)[|x|..];
  }

  lemma {:induction false} QuotedSkipped(s: string, i: nat, q: Quoted)
    requires ValidQuoted(q) && At(s, i, QuotedText(q))
    ensures SkipString(s, i) == i + |QuotedText(q)| - 1 < |s|
    decreases q
  {
    match q
    case EndQuote =>
      assert s[i] == s[i..i + 1][0];
    case Ch(c, rest) =>
      AtParts(s, i, [c], QuotedText(rest));
      assert s[i] == s[i..i + 1][0];
      QuotedSkipped(s, i + 1, rest);
    case Esc(e, rest) =>
      AtParts(s, i, ['\\', e], QuotedText(rest));
      assert s[i] == s[i..i + 2][0];
      QuotedSkipped(s, i + 2, rest);
  }

  /** One character of a scan inside an object. */
  lemma CharScanned(s: string, i: nat, depth: int)
    requires i < |s| && depth >= 1
    ensures s[i] !in "{}\"\\" ==> GoScan(s, i, depth) == GoScan(s, i + 1, depth) && CleanScan(s, i, depth) == CleanScan(s, i + 1, depth)
    ensures s[i] == '{' ==> GoScan(s, i, depth) == GoScan(s, i + 1, depth + 1) && CleanScan(s, i, depth) == CleanScan(s, i + 1, depth + 1)
    ensures s[i] == '}' && depth > 1 ==>
              GoScan(s, i, depth) == GoScan(s, i + 1, depth - 1) && CleanScan(s, i, depth) == CleanScan(s, i + 1, depth - 1)
    ensures s[i] == '"' ==>
              var j := SkipString(s, i + 1) + 1;
              GoScan(s, i, depth) == GoScan(s, j, depth) && CleanScan(s, i, depth) == CleanScan(s, j, depth)
  {
  }

  lemma AtHead(s: string, i: nat, c: char, rest: string)
    requires At(s, i, [c] + rest)
    ensures i < |s| && s[i] == c && At(s, i + 1, rest)
  {
    AtParts(s, i, [c], rest);
    assert s[i] == s[i..i + 1][0];
  }

  lemma PlainText(c: char, tail: Body)
    ensures BodyText(Plain(c, tail)) == [c] + BodyText(tail)
  {
  }

  lemma StrText(q: Quoted, tail: Body)
    ensures BodyText(Str(q, tail)) == ['"'] + (QuotedText(q) + BodyText(tail))
  {
  }

  lemma BracesText(inner: Body, tail: Body)
    ensures BodyText(Braces(inner, tail)) == ['{'] + (BodyText(inner) + (['}'] + BodyText(tail)))
  {
  }

  /** Where the parts of a braced body begin. */
  lemma BracesAt(s: string, i: nat, inner: Body, tail: Body)
    requires At(s, i, BodyText(Braces(inner, tail)))
    ensures var close := i + 1 + |BodyText(inner)|;
            && i < close < |s| && s[i] == '{' && s[close] == '}'
            && At(s, i + 1, BodyText(inner)) && At(s, close + 1, BodyText(tail))
            && close + 1 + |BodyText(tail)| == i + |BodyText(Braces(inner, tail))|
  {
    BracesText(inner, tail);
    hide BodyText, At;
    AtHead(s, i, '{', BodyText(inner) + (['}'] + BodyText(tail)));
    AtParts(s, i + 1, BodyText(inner), ['}'] + BodyText(tail));
    AtHead(s, i + 1 + |BodyText(inner)|, '}', BodyText(tail));
  }

  /** And those of one that begins with a string. */
  lemma StrAt(s: string, i: nat, q: Quoted, tail: Body)
    requires At(s, i, BodyText(Str(q, tail)))
    ensures var next := i + 1 + |QuotedText(q)|;
            && i < |s| && s[i] == '"' && At(s, i + 1, QuotedText(q)) && At(s, next, BodyText(tail))
            && next + |BodyText(tail)| == i + |BodyText(Str(q, tail))|
  {
    StrText(q, tail);
    hide BodyText, QuotedText, At;
    AtHead(s, i, '"', QuotedText(q) + BodyText(tail));
    AtParts(s, i + 1, QuotedText(q), BodyText(tail));
  }

  /** Inside an object, a scan comes out of any body where it went in. */
  lemma {:induction false} BodyScanned(s: string, i: nat, depth: int, b: Body)
    requires ValidBody(b) && At(s, i, BodyText(b)) && depth >= 1
    ensures GoScan(s, i, depth) == GoScan(s, i + |BodyText(b)|, depth)
    ensures CleanScan(s, i + |BodyText(b)|, depth) == CleanScan(s, i, depth)
    decreases b
  {
    hide GoScan, CleanScan, SkipString, At, QuotedText, ValidQuoted;
    match b
    case Nil =>
    case Plain(c, tail) =>
      PlainText(c, tail);
      assert ValidBody(tail) && c !in "{}\"\\";
      hide BodyText, ValidBody;
      AtHead(s, i, c, BodyText(tail));
      CharScanned(s, i, depth);
      BodyScanned(s, i + 1, depth, tail);
    case Str(q, tail) =>
      assert ValidBody(tail) && ValidQuoted(q);
      hide BodyText, ValidBody;
      StrAt(s, i, q, tail);
      CharScanned(s, i, depth);
      QuotedSkipped(s, i + 1, q);
      BodyScanned(s, i + 1 + |QuotedText(q)|, depth, tail);
    case Braces(inner, tail) =>
      assert ValidBody(inner) && ValidBody(tail);
      hide BodyText, ValidBody;
      BracesAt(s, i, inner, tail);
      var close := i + 1 + |BodyText(inner)|;
      CharScanned(s, i, depth);
      BodyScanned(s, i + 1, depth + 1, inner);
      CharScanned(s, close, depth + 1);
      BodyScanned(s, close + 1, depth, tail);
  }

  /** Both scans of an object text, whatever follows it, end at its last brace. */
  lemma ObjectScanned(s: string, i: nat, b: Body)
    requires ValidBody(b) && At(s, i, ObjectText(b))
    ensures GoScan(s, i, 0) == Some(i + |ObjectText(b)|)
    ensures PyScan(s, i, 0, false, false) == Some(i + |ObjectText(b)|)
  {
    hide SkipString, At;
    assert ObjectText(b) == ['{'] + (BodyText(b) + ['}']);
    AtHead(s, i, '{', BodyText(b) + ['}']);
    AtParts(s, i + 1, BodyText(b), ['}']);
    var close := i + 1 + |BodyText(b)|;
    assert ['}'] == ['}'] + [];
    AtHead(s, close, '}', []);
    BodyScanned(s, i + 1, 1, b);
    ScansAgree(s, i, 0);
  }

  // ---------------------------------------------------------------- main results

  predicate AllSpace(s: string) {
    forall k :: 0 <= k < |s| ==> IsSpace(s[k])
  }

  lemma {:induction false} SpaceSkipped(s: string, i: nat, space: string)
    requires At(s, i, space) && AllSpace(space)
    ensures LeadingSpace(s, i) == LeadingSpace(s, i + |space|)
    decreases |space|
  {
    if space != "" {
      AtParts(s, i, space[..1], space[1..]);
      assert s[i] == s[i..i + 1][0];
      SpaceSkipped(s, i + 1, space[1..]);
    }
  }

  /** The framing check passes an object text alone, behind at most four spaces, and
      rejects it as extra text with anything after it or with more space before it. */
  lemma FramingExact(space: string, b: Body, suffix: string)
    requires AllSpace(space) && ValidBody(b)
    ensures Framing(space + ObjectText(b) + suffix)
            == if |space| <= 4 && suffix == "" then Ok(ObjectText(b)) else Err(ExtraText)
  {
    hide GoScan, PyScan, ObjectText;
    var content := space + ObjectText(b) + suffix;
    assert At(content, 0, space);
    SpaceSkipped(content, 0, space);
    assert content[|space|] == '{';
    assert LeadingSpace(content, 0) == |space|;
    var trimmed := content[|space|..];
    assert trimmed == ObjectText(b) + suffix;
    assert At(trimmed, 0, ObjectText(b));
    ObjectScanned(trimmed, 0, b);
    assert suffix == "" ==> trimmed == ObjectText(b);
  }

  /** Before its last brace the scan of an object text never stops. */
  lemma PrefixNeverStops(b: Body, n: nat)
    requires ValidBody(b) && n < |ObjectText(b)|
    ensures GoScan(ObjectText(b)[..n], 0, 0) == None
  {
    var text := ObjectText(b);
    assert At(text, 0, text);
    ObjectScanned(text, 0, b);
    hide GoScan, PyScan, ObjectText;
    ScansAre(text);
    ScansAre(text[..n]);
    if After(false, text[..n]).Stopped? {
      StaysStopped(false, text, n);
    }
  }

  /** An object text that is cut off anywhere is malformed. */
  lemma TruncatedIsMalformed(space: string, b: Body, n: nat)
    requires AllSpace(space) && |space| <= 4 && ValidBody(b) && 0 < n < |ObjectText(b)|
    ensures Framing(space + ObjectText(b)[..n]) == Err(NoMatchingBrace)
  {
    PrefixNeverStops(b, n);
    hide ObjectText, GoScan;
    FramingCases(space, ObjectText(b)[..n]);
    hide Framing;
  }

  /** Of any text, behind its leading space: nothing at all is empty content; too much space, or
      anything but an opening brace, is extra text; otherwise it passes exactly when its first
      brace is closed by its last character, and is malformed when that brace is never closed. */
  lemma FramingCases(space: string, text: string)
    requires AllSpace(space) && (text == "" || !IsSpace(text[0]))
    ensures space + text == "" ==> Framing(space + text) == Err(EmptyContent)
    ensures space + text != "" && (|space| > 4 || text == "" || text[0] != '{') ==> Framing(space + text) == Err(ExtraText)
    ensures |space| <= 4 && text != "" && text[0] == '{' ==>
              match GoScan(text, 0, 0)
              case None => Framing(space + text) == Err(NoMatchingBrace)
              case Some(end) => Framing(space + text) == if end == |text| then Ok(text) else Err(ExtraText)
  {
    hide GoScan;
    var content := space + text;
    assert At(content, 0, space);
    SpaceSkipped(content, 0, space);
    assert text != "" ==> content[|space|] == text[0];
    assert LeadingSpace(content, 0) == |space|;
    assert content[|space|..] == text;
  }

  /** Object texts, each behind some space. */
  function Stream(parts: seq<(string, Body)>): string {
    if parts == [] then "" else parts[0].0 + ObjectText(parts[0].1) + Stream(parts[1..])
  }

  function Texts(parts: seq<(string, Body)>): seq<string> {
    seq(|parts|, k requires 0 <= k < |parts| => ObjectText(parts[k].1))
  }

  lemma SplitEnds(s: string, i: nat, space: string, rest: string)
    requires i <= |s| && s[i..] == space + rest
    requires AllSpace(space) && (rest == "" || (!IsSpace(rest[0]) && rest[0] != '{'))
    ensures Split(s, i) == []
  {
    assert At(s, i, space);
    SpaceSkipped(s, i, space);
    assert rest != "" ==> s[i + |space|] == s[i..][|space|] == rest[0];
  }

  lemma SplitOne(s: string, i: nat, gap: string, b: Body, after: string)
    requires i <= |s| && s[i..] == gap + (ObjectText(b) + after) && AllSpace(gap) && ValidBody(b)
    ensures var end := i + |gap| + |ObjectText(b)|;
            end <= |s| && s[end..] == after && Split(s, i) == [ObjectText(b)] + Split(s, end)
  {
    hide *;
    SuffixAt(s, i, gap, ObjectText(b) + after);
    var start := i + |gap|;
    SuffixAt(s, start, ObjectText(b), after);
    SpaceSkipped(s, i, gap);
    assert s[start] == s[start..][0] == '{';
    SpaceStops(s, start);
    ObjectScanned(s, start, b);
    var end := start + |ObjectText(b)|;
    assert s[start..end] == s[start..][..|ObjectText(b)|] == ObjectText(b);
    SplitUnfolds(s, i, start, end);
  }

  lemma SpaceStops(s: string, i: nat)
    requires i < |s| && s[i] == '{'
    ensures LeadingSpace(s, i) == i
  {
  }

  lemma SplitUnfolds(s: string, i: nat, start: nat, end: nat)
    requires i <= |s| && LeadingSpace(s, i) == start < |s| && s[start] == '{'
    requires PyScan(s, start, 0, false, false) == Some(end)
    ensures end <= |s| && Split(s, i) == [s[start..end]] + Split(s, end)
  {
  }

  lemma SuffixAt(s: string, i: nat, x: string, y: string)
    requires i <= |s| && s[i..] == x + y
    ensures At(s, i, x) && i + |x| <= |s| && s[i + |x|..] == y
  {
  }

  lemma {:induction false} SplitsFrom(s: string, i: nat, parts: seq<(string, Body)>, tail: string)
    requires i <= |s| && s[i..] == Stream(parts) + tail
    requires forall j :: 0 <= j <= |s| && s[j..] == tail ==> Split(s, j) == []
    requires forall p :: p in parts ==> AllSpace(p.0) && ValidBody(p.1)
    ensures Split(s, i) == Texts(parts)
    decreases |parts|
  {
    hide Split, ObjectText, AllSpace;
    if parts == [] {
      assert s[i..] == tail;
    } else {
      var (gap, b) := parts[0];
      var after := Stream(parts[1..]) + tail;
      assert s[i..] == gap + (ObjectText(b) + after);
      SplitOne(s, i, gap, b, after);
      SplitsFrom(s, i + |gap| + |ObjectText(b)|, parts[1..], tail);
      assert Texts(parts) == [ObjectText(b)] + Texts(parts[1..]);
    }
  }

  /** Splitting any concatenation of object texts, with space around them, returns exactly
      those texts; what follows from the first other character on is dropped. */
  lemma SplitsStream(parts: seq<(string, Body)>, space: string, rest: string)
    requires AllSpace(space) && (rest == "" || (!IsSpace(rest[0]) && rest[0] != '{'))
    requires forall p :: p in parts ==> AllSpace(p.0) && ValidBody(p.1)
    ensures Split(Stream(parts) + space + rest, 0) == Texts(parts)
  {
    hide *;
    var s := Stream(parts) + space + rest;
    assert s[0..] == s == Stream(parts) + (space + rest);
    forall j | 0 <= j <= |s| && s[j..] == space + rest ensures Split(s, j) == [] {
      SplitEnds(s, j, space, rest);
    }
    SplitsFrom(s, 0, parts, space + rest);
  }
}

/** The alarm text that the alarm component prints (alarm/cron/builder.go) and the parser of the
    message gateway that takes it apart again (falcon-message/util/util.go). */
module AlarmMessage {
  import opened Wrappers
  import opened Regex
  import opened Strings
  import opened AlarmPattern

  // ----- The printer -----

  /** The event fields that are printed; tags, values and time are already rendered as text. */
  datatype Event = Event(
    priority: int, status: string, endpoint: string, note: string, funcText: string, metric: string,
    tags: string, left: string, op: string, right: string, currentStep: int, time: string)

  function ValueText(e: Event): string { e.left + e.op + e.right }

  function BodyText(e: Event, note: string): string {
    note + " " + (e.funcText + " " + (e.metric + " " + (e.tags + " " + ValueText(e))))
  }

  function StepText(e: Event): string { "O" + Itoa(e.currentStep) + " " + e.time }

  /** The format "[P%d][%s][%s][][%s %s %s %s %s%s%s][O%d %s]": six pieces with "][" between. */
  function Render(e: Event, note: string): string {
    Join(["[P" + Itoa(e.priority), e.status, e.endpoint, "", BodyText(e, note), StepText(e) + "]"], "][")
  }

  const RECOVERED := "\U{5DF2}\U{6062}\U{590D}"

  function ImNote(e: Event): string {
    if e.status == "OK" then e.note + RECOVERED else e.note
  }

  function BuildCommonSMSContent(e: Event): string { Render(e, e.note) }

  function BuildCommonIMContent(e: Event): string { Render(e, ImNote(e)) }

  // ----- The parser -----

  // Go slices a string by bytes. Of all the fields only the description is cut at a place where a
  // character of several bytes can stand, so it is kept as bytes.

  type byte = b: int | 0 <= b < 0x100

  /** The UTF-8 form of one character. */
  function Utf8Char(c: char): (r: seq<byte>)
    ensures |r| > 0
  {
    var n := c as int;
    if n < 0x80 then [n]
    else if n < 0x800 then [0xC0 + n / 0x40, 0x80 + n % 0x40]
    else if n < 0x1_0000 then [0xE0 + n / 0x1000, 0x80 + n / 0x40 % 0x40, 0x80 + n % 0x40]
    else [0xF0 + n / 0x4_0000 % 8, 0x80 + n / 0x1000 % 0x40, 0x80 + n / 0x40 % 0x40, 0x80 + n % 0x40]
  }

  function Utf8(s: string): (r: seq<byte>)
    ensures |r| >= |s|
  {
    if s == "" then [] else Utf8(s[..|s| - 1]) + Utf8Char(s[|s| - 1])
  }

  lemma {:induction false} Utf8Concat(a: string, b: string)
    ensures Utf8(a + b) == Utf8(a) + Utf8(b)
  {
    hide Utf8Char;
    if b == "" {
      assert a + b == a;
    } else {
      var front := b[..|b| - 1];
      Utf8Concat(a, front);
      assert (a + b)[..|a + b| - 1] == a + front && (a + b)[|a + b| - 1] == b[|b| - 1];
      var last := Utf8Char(b[|b| - 1]);
      assert (Utf8(a) + Utf8(front)) + last == Utf8(a) + (Utf8(front) + last);
    }
  }

  /** All bytes but the last one. */
  function DropByte(s: string): seq<byte>
    requires s != ""
  {
    Utf8(s)[..|Utf8(s)| - 1]
  }

  /** Only a blank, or another single byte, is dropped whole. */
  lemma DropBlank(note: string)
    ensures DropByte(note + " ") == Utf8(note)
  {
    Utf8Concat(note, " ");
    assert " "[..0] == "" && Utf8(" ") == Utf8("") + Utf8Char(' ') == [32];
  }

  lemma DropShortens(note: string, cut: string)
    requires cut != "" && cut <= note
    ensures DropByte(cut) != Utf8(note)
  {
    Utf8Concat(cut, note[|cut|..]);
    assert note == cut + note[|cut|..];
  }

  datatype AlarmMessage = AlarmMessage(
    level: string, kind: string, endpoint: string, expression: string, desc: seq<byte>,
    counter: string, tags: string, triggerCount: int, count: int, time: string)

  predicate IsSpace(c: char) {
    || '\t' <= c <= '\r' || c == ' ' || c == '\U{85}' || c == '\U{A0}' || c == '\U{1680}'
    || '\U{2000}' <= c <= '\U{200A}' || c == '\U{2028}' || c == '\U{2029}' || c == '\U{202F}'
    || c == '\U{205F}' || c == '\U{3000}'
  }

  function TrimLeft(s: string): (r: string)
    ensures r == "" || !IsSpace(r[0])
  {
    if s != "" && IsSpace(s[0]) then TrimLeft(s[1..]) else s
  }

  function TrimRight(s: string): string {
    if s != "" && IsSpace(s[|s| - 1]) then TrimRight(s[..|s| - 1]) else s
  }

  function TrimSpace(s: string): string { TrimRight(TrimLeft(s)) }

  /** Where the leftmost match of the pattern starts, at or after `i`. */
  function FindFrom(s: string, i: nat): (r: Option<nat>)
    requires i <= |s|
    ensures r.Some? ==> i <= r.value <= |s|
    decreases |s| - i
  {
    if MatchLen(s[i..]).Some? then Some(i)
    else if i == |s| then None
    else FindFrom(s, i + 1)
  }

  lemma {:induction false} FindFromIsFirst(s: string, i: nat)
    requires i <= |s|
    ensures match FindFrom(s, i)
            case None => forall j :: i <= j <= |s| ==> MatchLen(s[j..]).None?
            case Some(k) => MatchLen(s[k..]).Some? && forall j :: i <= j < k ==> MatchLen(s[j..]).None?
    decreases |s| - i
  {
    hide MatchLen;
    if MatchLen(s[i..]).None? && i < |s| {
      FindFromIsFirst(s, i + 1);
    }
  }

  /** The first group of a match at the front. */
  function GroupOf(s: string): string
    requires MatchLen(s).Some?
  {
    var w := ClassLen(Word, s);
    var d := ClassLen(Digit, s[w + 2..]);
    s[w + 2..][..d]
  }

  /** The first group of the leftmost match. */
  function FirstGroup(s: string): Option<string> {
    match FindFrom(s, 0)
    case None => None
    case Some(i) =>
      assert MatchLen(s[i..]).Some? by { hide MatchLen; FindFromIsFirst(s, 0); }
      Some(GroupOf(s[i..]))
  }

  /** FindString agrees with the declarative meaning of the pattern. */
  lemma FindsLeftmostMatch(s: string)
    ensures match FindFrom(s, 0)
            case None => forall j, k :: 0 <= j <= k <= |s| ==> !Matches(PATTERN, s[j..k])
            case Some(i) =>
              var n := MatchLen(s[i..]);
              && n.Some? && i + n.value <= |s| && Matches(PATTERN, s[i..i + n.value])
              && forall j, k :: 0 <= j <= k <= |s| && j < i ==> !Matches(PATTERN, s[j..k])
  {
    hide MatchLen, Matches, PATTERN;
    forall j, k | 0 <= j <= k <= |s|
      ensures Matches(PATTERN, s[j..k]) ==> MatchLen(s[j..]).Some?
    {
      assert s[j..][..k - j] == s[j..k];
      FrontMatchIff(s[j..], k - j);
    }
    FindFromIsFirst(s, 0);
    match FindFrom(s, 0)
    case None =>
    case Some(i) =>
      FoundIsFunc(s[i..]);
      var n := MatchLen(s[i..]).value;
      FrontMatchIff(s[i..], n);
      assert s[i..][..n] == s[i..i + n];
  }

  lemma MatchBounds(s: string)
    requires FindFrom(s, 0).Some?
    ensures var i := FindFrom(s, 0).value;
            var n := MatchLen(s[i..]);
            n.Some? && i + n.value <= |s| && IsFunc(s[i..i + n.value])
  {
    hide MatchLen, FindFrom, IsFunc;
    FindFromIsFirst(s, 0);
    var i := FindFrom(s, 0).value;
    FoundIsFunc(s[i..]);
    assert s[i..][..MatchLen(s[i..]).value] == s[i..i + MatchLen(s[i..]).value];
  }

  lemma NoEarlierOccurrence(s: string, sub: string, p: nat)
    requires FindFrom(s, 0).Some? && FoundAt(s, sub, p) && IsFunc(sub)
    ensures FindFrom(s, 0).value <= p
  {
    hide MatchLen, FindFrom, IsFunc;
    FindFromIsFirst(s, 0);
    FoundIsMatched(s, sub, p);
  }

  /** The first occurrence of the matched text is the match itself. */
  lemma MatchIsFirstOccurrence(s: string)
    requires FindFrom(s, 0).Some?
    ensures var i := FindFrom(s, 0).value;
            var n := MatchLen(s[i..]);
            n.Some? && i + n.value <= |s| && Index(s, s[i..i + n.value]) == Some(i)
  {
    hide MatchLen, FindFrom, IsFunc;
    MatchBounds(s);
    var i := FindFrom(s, 0).value;
    var sub := s[i..i + MatchLen(s[i..]).value];
    assert FoundAt(s, sub, i);
    NoEarlierOccurrence(s, sub, Index(s, sub).value);
  }

  lemma FoundIsMatched(s: string, sub: string, p: nat)
    requires FoundAt(s, sub, p) && IsFunc(sub)
    ensures MatchLen(s[p..]) == Some(|sub|)
  {
    hide MatchLen, SecondGroup, Words, Digits;
    var name, n, more :| FuncOf(sub, name, n, more);
    assert s[p..] == sub + s[p + |sub|..];
    FuncIsFound(sub, name, n, more, s[p + |sub|..]);
  }

  /** What the fifth piece of the text says. */
  datatype Condition = Condition(expression: string, desc: seq<byte>, triggerCount: int, counter: string, tags: string)

  function Counters(text: string): Option<(string, string)> {
    var trimmed := TrimSpace(text);
    match Index(trimmed, " ")
    case None => None
    case Some(p) => Some((trimmed[..p], TrimSpace(trimmed[p..])))
  }

  function ReadBody(body: string): Option<Condition> {
    match FindFrom(body, 0)
    case None => None
    case Some(i) =>
      assert MatchLen(body[i..]).Some? && i + MatchLen(body[i..]).value <= |body| by {
        hide MatchLen;
        MatchBounds(body);
      }
      var n := MatchLen(body[i..]).value;
      var expression := body[i..i + n];
      var count := ReadTrigger(expression);
      var rest := Counters(body[i + n..]);
      if i == 0 || count.None? || rest.None? then None
      else Some(Condition(expression, DropByte(body[..i]), count.value, rest.value.0, rest.value.1))
  }

  function ReadTrigger(expression: string): Option<int> {
    match FirstGroup(expression)
    case None => None
    case Some(digits) => ParseInt(digits, 64)
  }

  predicate Ascii(s: string) {
    forall i :: 0 <= i < |s| ==> s[i] < '\U{80}'
  }

  /** What the sixth piece says: the step after its first character, and the time. */
  function ReadStep(text: string, timeOk: string -> bool): Option<(int, string)> {
    var parts := Split(text, " ");
    if parts[0] == "" then None
    else
      var count := ParseInt(parts[0][1..], 64);
      var time := Join(parts[1..], " ");
      if count.None? || !timeOk(time) then None else Some((count.value, time))
  }

  /** The message in a text, if there is one. `timeOk` tells the texts that are times. */
  function Meaning(content: string, timeOk: string -> bool): Option<AlarmMessage> {
    var p := Split(content, "][");
    if |p| < 6 || p[0] == "" || p[5] == "" || !Ascii(p[5]) then None
    else
      var c := ReadBody(p[4]);
      var t := ReadStep(p[5][..|p[5]| - 1], timeOk);
      if c.None? || t.None? then None
      else Some(AlarmMessage(p[0][1..], p[1], p[2], c.value.expression, c.value.desc,
                             c.value.counter, c.value.tags, c.value.triggerCount, t.value.0, t.value.1))
  }

  /** HandleContent; None stands for an error or a panic. */
  method HandleContent(content: string, timeOk: string -> bool) returns (r: Option<AlarmMessage>)
    ensures r == Meaning(content, timeOk)
  {
    hide MatchLen, ParseInt, TrimSpace, Ascii, FirstGroup, Split, Join, FindFrom, Index, IsFunc, DropByte;
    var args := Split(content, "][");
    if |args| < 6 || args[0] == "" || args[5] == "" || !Ascii(args[5]) {
      return None;
    }
    args := args[0 := args[0][1..]];
    args := args[5 := args[5][..|args[5]| - 1]];
    var argStr := args[4];
    var match0 := FindFrom(argStr, 0);
    if match0.None? {
      return None;
    }
    MatchIsFirstOccurrence(argStr);
    var expression := argStr[match0.value..match0.value + MatchLen(argStr[match0.value..]).value];
    var pos := Index(argStr, expression).value;
    if pos == 0 {
      return None;
    }
    var desc := DropByte(argStr[..pos]);
    var group := FirstGroup(expression);
    if group.None? {
      return None;
    }
    var triggerCount := ParseInt(group.value, 64);
    if triggerCount.None? {
      return None;
    }
    argStr := TrimSpace(argStr[pos + |expression|..]);
    var space := Index(argStr, " ");
    if space.None? {
      return None;
    }
    pos := space.value;
    var counter := argStr[..pos];
    var tags := TrimSpace(argStr[pos..]);
    assert ReadBody(args[4]) == Some(Condition(expression, desc, triggerCount.value, counter, tags));
    hide ReadBody, Counters, ReadTrigger;
    argStr := args[5];
    var subArgs := Split(argStr, " ");
    if subArgs[0] == "" {
      return None;
    }
    var count := ParseInt(subArgs[0][1..], 64);
    if count.None? {
      return None;
    }
    var timeStr := Join(subArgs[1..], " ");
    if !timeOk(timeStr) {
      return None;
    }
    r := Some(AlarmMessage(args[0], args[1], args[2], expression, desc, counter, tags,
                           triggerCount.value, count.value, timeStr));
  }

  // ----- The parser undoes the printer -----

  /** No part of the text looks like a function. */
  ghost predicate NoFunc(s: string) {
    forall i, k :: 0 <= i <= k <= |s| ==> !IsFunc(s[i..k])
  }

  predicate NoSpace(s: string) { forall i :: 0 <= i < |s| ==> !IsSpace(s[i]) }

  predicate FuncChar(c: char) {
    InClass(Word, c) || c == '(' || c == '#' || c == ',' || c == ')'
  }

  lemma FuncChars(s: string)
    requires IsFunc(s)
    ensures s != "" && forall i :: 0 <= i < |s| ==> FuncChar(s[i])
  {
    var name, n, more :| FuncOf(s, name, n, more);
    GroupChars(more);
    hide SecondGroup;
    forall i | 0 <= i < |s| ensures FuncChar(s[i]) {
      if i < |name| {
        assert s[i] == name[i];
      } else if |name| + 2 <= i < |name| + 2 + |n| {
        assert s[i] == n[i - |name| - 2];
      } else if |name| + 2 + |n| <= i < |s| - 1 {
        assert s[i] == more[i - |name| - 2 - |n|];
      }
    }
  }

  lemma GroupChars(more: string)
    requires SecondGroup(more)
    ensures forall i :: 0 <= i < |more| ==> FuncChar(more[i])
  {
    if more != "" {
      var i :| 0 < i < |more| && Commas(more[..i]) && Digits(more[i..]);
      forall j | 0 <= j < |more| ensures FuncChar(more[j]) {
        if j < i {
          assert more[j] == more[..i][j];
        } else {
          assert more[j] == more[i..][j - i];
        }
      }
    }
  }

  lemma FuncAvoids(s: string, c: char)
    requires IsFunc(s) && !FuncChar(c)
    ensures c !in s
  {
    FuncChars(s);
  }

  /** A character that functions do not have cuts a match off. */
  lemma MatchStopsBefore(s: string, c: char, t: string, j: nat)
    requires j <= |s| && !FuncChar(c)
    ensures MatchLen((s + [c] + t)[j..]).Some? <==> exists k :: j <= k <= |s| && IsFunc(s[j..k])
  {
    hide MatchLen, IsFunc, FuncChar;
    var u := (s + [c] + t)[j..];
    if MatchLen(u).Some? {
      FoundIsFunc(u);
      var n := MatchLen(u).value;
      assert n > |s| - j ==> u[..n][|s| - j] == c;
      FuncAvoids(u[..n], c);
      assert s[j..j + n] == u[..n];
    }
    if k :| j <= k <= |s| && IsFunc(s[j..k]) {
      assert FoundAt(u, s[j..k], 0);
      FoundIsMatched(u, s[j..k], 0);
      assert u[0..] == u;
    }
  }

  /** Where the leftmost match of "note func ..." lies: at the function exactly when the note has
      nothing that looks like a function, and inside the note otherwise. */
  lemma FindInBody(note: string, f: string, rest: string)
    requires IsFunc(f)
    ensures var s := note + " " + (f + rest);
            && FindFrom(s, 0).Some?
            && (if NoFunc(note) then FindFrom(s, 0) == Some(|note| + 1) && MatchLen(s[|note| + 1..]) == Some(|f|)
                else FindFrom(s, 0).value <= |note|)
  {
    hide MatchLen, IsFunc, FindFrom;
    var s := note + " " + (f + rest);
    FindFromIsFirst(s, 0);
    assert s == note + [' '] + (f + rest);
    forall j | 0 <= j <= |note|
      ensures MatchLen(s[j..]).Some? <==> exists k :: j <= k <= |note| && IsFunc(note[j..k])
    {
      MatchStopsBefore(note, ' ', f + rest, j);
    }
    assert FoundAt(s, f, |note| + 1);
    FoundIsMatched(s, f, |note| + 1);
    if j, k :| 0 <= j <= k <= |note| && IsFunc(note[j..k]) {
      assert MatchLen(s[j..]).Some?;
    }
  }

  lemma {:induction false} TrimKeeps(s: string)
    requires s != "" && !IsSpace(s[0]) && !IsSpace(s[|s| - 1])
    ensures TrimSpace(s) == s
    ensures TrimSpace(" " + s) == s
  {
    assert (" " + s)[1..] == s;
  }

  lemma TrimSkipsSpace(s: string)
    ensures TrimSpace(" " + s) == TrimSpace(s)
  {
    assert (" " + s)[1..] == s;
  }

  lemma NoSpaceNoBlank(s: string)
    requires NoSpace(s)
    ensures ' ' !in s
  {
  }

  /** The counter and the tags come back; the compared values end up among the tags. */
  lemma CountersOfPrinted(metric: string, tags: string, value: string)
    requires metric != "" && NoSpace(metric) && value != "" && NoSpace(value)
    ensures Counters(" " + (metric + " " + (tags + " " + value))) == Some((metric, TrimSpace(tags + " " + value)))
  {
    hide TrimSpace, IsSpace;
    var tail := tags + " " + value;
    var s := metric + " " + tail;
    assert s[0] == metric[0] && s[|s| - 1] == value[|value| - 1];
    TrimKeeps(s);
    NoSpaceNoBlank(metric);
    FirstBlank(metric, tail);
    assert s[|metric|..] == " " + tail;
    assert s[..|metric|] == metric;
    TrimSkipsSpace(tail);
    assert s == metric + " " + (tags + " " + value);
  }

  lemma FirstBlank(a: string, b: string)
    requires ' ' !in a
    ensures Index(a + " " + b, " ") == Some(|a|)
  {
    var s := a + " " + b;
    assert FoundAt(s, " ", |a|);
    var i := Index(s, " ").value;
    FoundStarts(s, " ", i);
  }

  lemma TriggerOfFunc(s: string, name: string, n: string, more: string)
    requires FuncOf(s, name, n, more)
    ensures FirstGroup(s) == Some(n)
  {
    hide ClassLen, SecondGroup, MatchLen;
    assert s + "" == s;
    FuncIsFound(s, name, n, more, "");
    assert s[0..] == s;
    assert FindFrom(s, 0) == Some(0);
    var r1, r2 := "(#" + (n + (more + ")")), more + ")";
    assert s == name + r1;
    ClassLenIs(Word, name, r1);
    assert s[|name| + 2..] == n + r2;
    CloseStartsRight(more, "");
    assert more + ")" + "" == r2;
    ClassLenIs(Digit, n, r2);
  }

  /** The body is read back exactly when the note has nothing that looks like a function. */
  lemma BodyReadBack(e: Event, note: string, name: string, n: string, more: string)
    requires FuncOf(e.funcText, name, n, more) && ParseInt(n, 64).Some?
    requires e.metric != "" && NoSpace(e.metric) && ValueText(e) != "" && NoSpace(ValueText(e))
    ensures NoFunc(note) ==>
              ReadBody(BodyText(e, note)) == Some(Condition(e.funcText, Utf8(note), ParseInt(n, 64).value, e.metric,
                                                            TrimSpace(e.tags + " " + ValueText(e))))
    ensures !NoFunc(note) ==>
              var c := ReadBody(BodyText(e, note)); c.Some? ==> c.value.desc != Utf8(note)
  {
    hide MatchLen, ParseInt, TrimSpace, ValueText, FirstGroup, FuncOf, NoFunc, NoSpace, Counters, Utf8, DropByte;
    var rest := " " + (e.metric + " " + (e.tags + " " + ValueText(e)));
    var s := note + " " + (e.funcText + rest);
    assert BodyText(e, note) == s by {
      assert e.funcText + " " + (e.metric + " " + (e.tags + " " + ValueText(e))) == e.funcText + rest;
    }
    FindInBody(note, e.funcText, rest);
    if NoFunc(note) {
      var i, k := |note| + 1, |note| + 1 + |e.funcText|;
      assert s[i..k] == e.funcText && s[k..] == rest && s[..i] == note + " ";
      DropBlank(note);
      TriggerOfFunc(e.funcText, name, n, more);
      CountersOfPrinted(e.metric, e.tags, ValueText(e));
    } else {
      var i := FindFrom(s, 0).value;
      if i > 0 {
        assert s[..i] == note[..i];
        DropShortens(note, s[..i]);
      }
    }
  }

  lemma StepReadBack(step: int, time: string, timeOk: string -> bool)
    requires FitsBits(step, 64) && timeOk(time)
    ensures ReadStep("O" + Itoa(step) + " " + time, timeOk) == Some((step, time))
  {
    hide Itoa, ParseInt, Index;
    var head := "O" + Itoa(step);
    ItoaChars(step);
    SplitHead(head, " ", time);
    var parts := Split(head + " " + time, " ");
    assert parts[0] == head && parts[1..] == Split(time, " ");
    assert head[1..] == Itoa(step);
    ParseItoa(step, 64);
    JoinSplit(time, " ");
  }

  /** What the parser should find in the text printed with `note`. */
  ghost predicate ReadsBack(e: Event, note: string, trigger: int, r: Option<AlarmMessage>) {
    r == Some(AlarmMessage("P" + Itoa(e.priority), e.status, e.endpoint, e.funcText, Utf8(note),
                           e.metric, TrimSpace(e.tags + " " + ValueText(e)), trigger, e.currentStep, e.time))
  }

  predicate NoBracket(s: string) { ']' !in s }

  /** What a text must not contain to be taken apart at its brackets. */
  predicate Printable(e: Event, note: string) {
    && NoBracket(e.status) && NoBracket(e.endpoint) && NoBracket(note) && NoBracket(e.metric)
    && NoBracket(e.tags) && NoBracket(ValueText(e)) && NoBracket(e.time) && Ascii(e.time)
    && e.metric != "" && NoSpace(e.metric) && ValueText(e) != "" && NoSpace(ValueText(e))
    && FitsBits(e.currentStep, 64)
  }

  lemma LastPiece(a: string)
    requires NoBracket(a)
    ensures Index(a + "]", "][").None?
  {
    forall i {
      FoundStarts(a + "]", "][", i);
    }
  }

  lemma ItoaHasNoBracket(n: int)
    ensures NoBracket(Itoa(n)) && Ascii(Itoa(n))
  {
    hide Itoa;
    ItoaChars(n);
    var s := Itoa(n);
    forall i | 0 <= i < |s| ensures s[i] < '\U{80}' {
      assert s[i] in s;
    }
  }

  lemma BodyHasNoBracket(e: Event, note: string)
    requires Printable(e, note) && IsFunc(e.funcText)
    ensures NoBracket(BodyText(e, note))
  {
    hide ValueText, IsFunc, NoSpace;
    FuncChars(e.funcText);
  }

  function Pieces(e: Event, note: string): seq<string> {
    ["[P" + Itoa(e.priority), e.status, e.endpoint, "", BodyText(e, note), StepText(e) + "]"]
  }

  lemma PiecesReadBack(e: Event, note: string)
    requires Printable(e, note) && IsFunc(e.funcText)
    ensures Split(Render(e, note), "][") == Pieces(e, note)
    ensures Ascii(StepText(e) + "]")
  {
    hide IsFunc, NoSpace, ValueText, BodyText, Itoa, Index;
    BodyHasNoBracket(e, note);
    ItoaHasNoBracket(e.priority);
    ItoaHasNoBracket(e.currentStep);
    LastPiece(StepText(e));
    SplitJoin(Pieces(e, note), "][");
  }

  /** For printable fields and a function of the form name(#n) or name(#n,m), the parser gives
      back everything that was printed if and only if the note has nothing that looks like a
      function. */
  lemma HandleInvertsRender(e: Event, note: string, name: string, n: string, more: string, timeOk: string -> bool)
    requires Printable(e, note) && FuncOf(e.funcText, name, n, more) && ParseInt(n, 64).Some? && timeOk(e.time)
    ensures ReadsBack(e, note, ParseInt(n, 64).value, Meaning(Render(e, note), timeOk)) <==> NoFunc(note)
  {
    hide ReadBody, ReadStep, ParseInt, FuncOf, NoFunc, ValueText, BodyText, Itoa, Ascii, Render, TrimSpace, Utf8;
    PiecesReadBack(e, note);
    BodyReadBack(e, note, name, n, more);
    StepReadBack(e.currentStep, e.time, timeOk);
    var p := Pieces(e, note);
    assert p[0][1..] == "P" + Itoa(e.priority);
    assert p[5][..|p[5]| - 1] == StepText(e);
  }

  /** The text message: level, status, endpoint, note, function, metric, trigger count, step and
      time all come back. */
  lemma SmsRoundTrip(e: Event, name: string, n: string, more: string, timeOk: string -> bool)
    requires Printable(e, e.note) && FuncOf(e.funcText, name, n, more) && ParseInt(n, 64).Some? && timeOk(e.time)
    ensures ReadsBack(e, e.note, ParseInt(n, 64).value, Meaning(BuildCommonSMSContent(e), timeOk)) <==> NoFunc(e.note)
  {
    hide FuncOf, ParseInt, Render, Meaning, ReadsBack, NoFunc, NoSpace, ValueText, Ascii;
    HandleInvertsRender(e, e.note, name, n, more, timeOk);
  }

  /** The recovery suffix neither makes nor hides a function. */
  lemma SuffixIsHarmless(note: string)
    ensures NoFunc(note + RECOVERED) <==> NoFunc(note)
  {
    hide IsFunc;
    var s := note + RECOVERED;
    forall i, k | 0 <= i <= k <= |s| && IsFunc(s[i..k])
      ensures k <= |note| && s[i..k] == note[i..k]
    {
      var j := if i < |note| then |note| else i;
      assert i < k ==> k > |note| ==> s[i..k][j - i] == RECOVERED[j - |note|];
      FuncChars(s[i..k]);
    }
    forall i, k | 0 <= i <= k <= |note| ensures s[i..k] == note[i..k] {
    }
  }

  /** The instant message is the text message, of an OK event that of a note marked as recovered. */
  lemma RecoveryIsMarked(e: Event)
    ensures e.status != "OK" ==> BuildCommonIMContent(e) == BuildCommonSMSContent(e)
    ensures e.status == "OK" ==> BuildCommonIMContent(e) == BuildCommonSMSContent(e.(note := e.note + RECOVERED))
  {
  }

  /** The instant message: the same, with the recovery suffix in the note of an OK event. */
  lemma ImRoundTrip(e: Event, name: string, n: string, more: string, timeOk: string -> bool)
    requires Printable(e, e.note) && FuncOf(e.funcText, name, n, more) && ParseInt(n, 64).Some? && timeOk(e.time)
    ensures var note := if e.status == "OK" then e.note + RECOVERED else e.note;
            ReadsBack(e, note, ParseInt(n, 64).value, Meaning(BuildCommonIMContent(e), timeOk)) <==> NoFunc(e.note)
  {
    hide FuncOf, ParseInt, Render, Meaning, ReadsBack, NoFunc, NoSpace, ValueText, Ascii;
    SuffixIsHarmless(e.note);
    HandleInvertsRender(e, ImNote(e), name, n, more, timeOk);
  }
}

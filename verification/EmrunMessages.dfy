/** How a page's output travels to emrun as the body of a POST (src/emrun_postjs.js) and is read
    there (emrun.py, do_POST). Texts are byte strings: the UTF-8 form of what the page printed. */
module EmrunMessages {
  import opened Options
  import opened EmrunServer

  predicate IsBytes(s: string) {
    forall i :: 0 <= i < |s| ==> s[i] as int < 256
  }

  // ----- encodeURIComponent

  predicate Unreserved(c: char) {
    'A' <= c <= 'Z' || 'a' <= c <= 'z' || '0' <= c <= '9' || c in "-_.!~*'()"
  }

  function HexDigit(n: nat): char
    requires n < 16
  {
    "0123456789ABCDEF"[n]
  }

  function EncodeByte(c: char): string
    requires c as int < 256
  {
    if Unreserved(c) then [c] else ['%', HexDigit(c as int / 16), HexDigit(c as int % 16)]
  }

  function EncodeText(s: string): string
    requires IsBytes(s)
  {
    if s == [] then [] else EncodeByte(s[0]) + EncodeText(s[1..])
  }

  function Digits(n: nat): string {
    if n < 10 then ["0123456789"[n]] else Digits(n / 10) + ["0123456789"[n % 10]]
  }

  function Prefix(m: Message): string
    requires m.number >= 0
  {
    (if m.toStderr then "^err^" else "^out^") + Digits(m.number) + "^"
  }

  /** The body of the POST that carries a message. */
  function Format(m: Message): string
    requires m.number >= 0 && IsBytes(m.text)
  {
    Prefix(m) + EncodeText(m.text)
  }

  const PAGE_LOAD := "^pageload^"

  /** The body of the POST that carries an exit code. */
  function ExitBody(code: int): string {
    "^exit^" + if code < 0 then "-" + Digits(-code) else Digits(code)
  }

  // ----- the server's side

  function PlusToSpace(s: string): string {
    seq(|s|, i requires 0 <= i < |s| => if s[i] == '+' then ' ' else s[i])
  }

  function HexValue(c: char): Option<nat> {
    if '0' <= c <= '9' then Some(c as int - '0' as int)
    else if 'A' <= c <= 'F' then Some(c as int - 'A' as int + 10)
    else if 'a' <= c <= 'f' then Some(c as int - 'a' as int + 10)
    else None
  }

  /** urllib's unquote: a percent sign that two hexadecimal digits do not follow stays as it is. */
  function Unquote(s: string): string {
    if s == [] then []
    else if s[0] == '%' && |s| >= 3 && HexValue(s[1]).Some? && HexValue(s[2]).Some? then
      [(HexValue(s[1]).value * 16 + HexValue(s[2]).value) as char] + Unquote(s[3..])
    else [s[0]] + Unquote(s[1..])
  }

  predicate HasPercentU(s: string) {
    exists i :: 0 <= i < |s| - 1 && s[i] == '%' && s[i + 1] == 'u'
  }

  /** unquote_u calls `decode` on a string that contains `%u`; strings have no such method. */
  function UnquoteU(s: string): Option<string> {
    var r := Unquote(s);
    if HasPercentU(r) then None else Some(r)
  }

  predicate IsDigit(c: char) {
    '0' <= c <= '9'
  }

  function Value(s: string): nat
    requires forall i :: 0 <= i < |s| ==> IsDigit(s[i])
  {
    if s == [] then 0
    else
      assert IsDigit(s[|s| - 1]);
      Value(s[..|s| - 1]) * 10 + (s[|s| - 1] as int - '0' as int)
  }

  /** Python's int() on digits with an optional minus sign; None stands for its ValueError. */
  function ParseInt(s: string): Option<int> {
    if s != [] && s[0] == '-' then
      if |s| > 1 && forall i :: 1 <= i < |s| ==> IsDigit(s[i]) then
        var v: int := Value(s[1..]);
        Some(-v)
      else None
    else if s != [] && forall i :: 0 <= i < |s| ==> IsDigit(s[i]) then Some(Value(s))
    else None
  }

  function IndexOfCaret(s: string, from: nat): Option<nat>
    decreases |s| - from
  {
    if from >= |s| then None else if s[from] == '^' then Some(from) else IndexOfCaret(s, from + 1)
  }

  datatype Received =
    | Raised              // the handler dies with an exception: nothing is logged, nothing answered
    | PageLoad
    | Exit(code: Option<int>)  // None: the code is no number
    | Log(m: Message)

  /** A message is expected to read (stream)(number)^(text); otherwise all of it is logged as it is. */
  function Numbered(data: string, toStderr: bool): Message {
    match IndexOfCaret(data, 5)
    case None => Message(-1, data, toStderr)
    case Some(i) =>
      CaretBounds(data, 5);
      match ParseInt(data[5..i])
      case None => Message(-1, data, toStderr)
      case Some(n) => Message(n, data[i + 1..], toStderr)
  }

  function Parse(data: string): Received {
    if data == "^pageload^" then PageLoad
    else if "^exit^" <= data then Exit(ParseInt(data[6..]))
    else if "^err^" <= data then Log(Numbered(data, true))
    else if "^out^" <= data then Log(Numbered(data, false))
    else Log(Message(-1, data, false))
  }

  /** What do_POST makes of a body. */
  function Receive(body: string): Received {
    match UnquoteU(PlusToSpace(body))
    case None => Raised
    case Some(data) => Parse(data)
  }

  /** What a handler does: the server then, whether it stops, and whether the page is answered. */
  datatype Reply = Reply(server: Server, stops: bool, answered: bool)

  /** Messages are answered; an exit, unless the server is to serve on, shuts it down without an answer;
      an exception (also for an exit code that is no number) leaves the page without one. */
  function Serve(s: Server, body: string, serveAfterExit: bool): Reply {
    match Receive(body)
    case Raised => Reply(s, false, false)
    case PageLoad => Reply(s, false, true)
    case Exit(code) =>
      if serveAfterExit then Reply(s, false, true)
      else if code.None? then Reply(s, false, false)
      else Reply(All(s), true, false)
    case Log(m) => Reply(Handle(s, m), false, true)
  }

  lemma {:induction false} CaretBounds(s: string, from: nat)
    ensures var r := IndexOfCaret(s, from);
      && (r.Some? ==> from <= r.value < |s| && s[r.value] == '^' && forall j :: from <= j < r.value ==> s[j] != '^')
      && (r.None? ==> forall j :: from <= j < |s| ==> s[j] != '^')
    decreases |s| - from
  {
    if from < |s| && s[from] != '^' {
      CaretBounds(s, from + 1);
    }
  }

  // ----- what the encoding survives

  lemma HexRoundTrip(n: nat)
    requires n < 16
    ensures HexValue(HexDigit(n)) == Some(n) && HexDigit(n) != '+' && HexDigit(n) != '%'
  {
  }

  lemma {:induction false} EncodingHasNoPlus(s: string)
    requires IsBytes(s)
    ensures forall i :: 0 <= i < |EncodeText(s)| ==> EncodeText(s)[i] != '+'
  {
    if s != [] {
      EncodingHasNoPlus(s[1..]);
      HexRoundTrip(s[0] as int / 16);
      HexRoundTrip(s[0] as int % 16);
    }
  }

  /** Percent-decoding undoes percent-encoding, for every byte string. */
  lemma {:induction false} UnquoteUndoesEncode(s: string)
    requires IsBytes(s)
    ensures Unquote(EncodeText(s)) == s
  {
    if s != [] {
      UnquoteUndoesEncode(s[1..]);
      UnquoteByte(s[0], EncodeText(s[1..]));
      assert s == [s[0]] + s[1..];
    }
  }

  lemma UnquoteByte(c: char, rest: string)
    requires c as int < 256
    ensures Unquote(EncodeByte(c) + rest) == [c] + Unquote(rest)
  {
    var e := EncodeByte(c) + rest;
    if Unreserved(c) {
      assert e[0] == c && e[1..] == rest && c != '%';
    } else {
      HexRoundTrip(c as int / 16);
      HexRoundTrip(c as int % 16);
      assert e[0] == '%' && e[1] == HexDigit(c as int / 16) && e[2] == HexDigit(c as int % 16) && e[3..] == rest;
    }
  }

  lemma {:induction false} UnquoteKeepsPrefix(p: string, s: string)
    requires forall i :: 0 <= i < |p| ==> p[i] != '%'
    ensures Unquote(p + s) == p + Unquote(s)
  {
    if p == [] {
      assert p + s == s;
    } else {
      UnquoteKeepsPrefix(p[1..], s);
      assert (p + s)[0] == p[0] && (p + s)[1..] == p[1..] + s;
      UnquotePlain(p + s);
      HeadAndTail(p, Unquote(s));
    }
  }

  lemma UnquotePlain(s: string)
    requires s != [] && s[0] != '%'
    ensures Unquote(s) == [s[0]] + Unquote(s[1..])
  {
  }

  lemma HeadAndTail(p: string, s: string)
    requires p != []
    ensures [p[0]] + (p[1..] + s) == p + s
  {
  }

  lemma {:induction false} DigitsRoundTrip(n: nat)
    ensures |Digits(n)| >= 1 && forall i :: 0 <= i < |Digits(n)| ==> IsDigit(Digits(n)[i])
    ensures Value(Digits(n)) == n
  {
    if n >= 10 {
      DigitsRoundTrip(n / 10);
      assert Digits(n)[..|Digits(n)| - 1] == Digits(n / 10);
    } else {
      assert Value([]) == 0 && Digits(n)[..0] == [];
    }
  }

  lemma {:induction false} CaretIsFirst(s: string, from: nat, i: nat)
    requires from <= i < |s| && s[i] == '^' && forall j :: from <= j < i ==> s[j] != '^'
    ensures IndexOfCaret(s, from) == Some(i)
    decreases i - from
  {
    if from < i {
      CaretIsFirst(s, from + 1, i);
    }
  }

  lemma PrefixIsPlain(m: Message)
    requires m.number >= 0
    ensures forall i :: 0 <= i < |Prefix(m)| ==> Prefix(m)[i] != '%' && Prefix(m)[i] != '+'
  {
    DigitsRoundTrip(m.number);
    var d := Digits(m.number);
    forall i | 0 <= i < |Prefix(m)| ensures Prefix(m)[i] != '%' && Prefix(m)[i] != '+' {
      if 5 <= i < 5 + |d| {
        assert Prefix(m)[i] == d[i - 5];
        assert IsDigit(d[i - 5]);
      }
    }
  }

  lemma NumberPart(stream: string, d: string, text: string)
    requires |stream| == 5
    ensures var data := stream + d + "^" + text;
      && |data| > 5 + |d| && data[5..5 + |d|] == d && data[5 + |d|] == '^' && data[5 + |d| + 1..] == text
      && forall j :: 5 <= j < 5 + |d| ==> data[j] == d[j - 5]
  {
  }

  lemma NumberedUndoes(stream: string, n: nat, text: string, toStderr: bool)
    requires |stream| == 5
    ensures Numbered(stream + Digits(n) + "^" + text, toStderr) == Message(n, text, toStderr)
  {
    var d := Digits(n);
    var data := stream + d + "^" + text;
    DigitsRoundTrip(n);
    NumberPart(stream, d, text);
    forall j | 5 <= j < 5 + |d| ensures data[j] != '^' {
      assert IsDigit(d[j - 5]);
    }
    CaretIsFirst(data, 5, 5 + |d|);
    DigitsAreInt(n);
  }

  lemma DigitsAreInt(n: nat)
    ensures ParseInt(Digits(n)) == Some(n)
  {
    DigitsRoundTrip(n);
    assert IsDigit(Digits(n)[0]);
  }

  lemma StreamDecides(data: string)
    ensures "^err^" <= data ==> Parse(data) == Log(Numbered(data, true))
    ensures "^out^" <= data ==> Parse(data) == Log(Numbered(data, false))
  {
    if "^err^" <= data {
      assert data[1] == 'e' && data[2] == 'r';
    }
    if "^out^" <= data {
      assert data[1] == 'o';
    }
  }

  lemma ParseUndoesPrefix(m: Message)
    requires m.number >= 0
    ensures Parse(Prefix(m) + m.text) == Log(m)
  {
    var stream := if m.toStderr then "^err^" else "^out^";
    NumberedUndoes(stream, m.number, m.text, m.toStderr);
    assert stream <= Prefix(m) + m.text;
    StreamDecides(Prefix(m) + m.text);
  }

  /** A message reaches the log under its number, on its stream and with its text unchanged, exactly
      when the text does not contain `%u`; if it does, the handler raises and the message is lost. */
  lemma ReceivedExactlyWithoutPercentU(m: Message)
    requires m.number >= 0 && IsBytes(m.text)
    ensures Receive(Format(m)) == if HasPercentU(m.text) then Raised else Log(m)
  {
    var p, e := Prefix(m), EncodeText(m.text);
    PrefixIsPlain(m);
    EncodingHasNoPlus(m.text);
    WithoutPlus(p + e);
    UnquoteKeepsPrefix(p, e);
    UnquoteUndoesEncode(m.text);
    PercentUBehindPrefix(p, m.text);
    ParseUndoesPrefix(m);
  }

  lemma WithoutPlus(s: string)
    requires forall i :: 0 <= i < |s| ==> s[i] != '+'
    ensures PlusToSpace(s) == s
  {
  }

  lemma PercentUBehindPrefix(p: string, text: string)
    requires forall i :: 0 <= i < |p| ==> p[i] != '%'
    ensures HasPercentU(p + text) <==> HasPercentU(text)
  {
    var r := p + text;
    if HasPercentU(text) {
      var i :| 0 <= i < |text| - 1 && text[i] == '%' && text[i + 1] == 'u';
      assert r[|p| + i] == '%' && r[|p| + i + 1] == 'u';
    }
    if i :| 0 <= i < |r| - 1 && r[i] == '%' && r[i + 1] == 'u' {
      assert i >= |p|;
      assert text[i - |p|] == '%' && text[i - |p| + 1] == 'u';
    }
  }

  // ----- what a body is

  /** A text without percent and plus signs is read as it is. */
  lemma PlainIsParsed(s: string)
    requires forall i :: 0 <= i < |s| ==> s[i] != '%' && s[i] != '+'
    ensures Receive(s) == Parse(s)
  {
    WithoutPlus(s);
    UnquoteKeepsPrefix(s, "");
    assert s + "" == s;
    assert Unquote(s) == s;
  }

  /** Every exit code that the page posts is read as this exit code. */
  lemma ExitIsReceived(code: int)
    ensures Receive(ExitBody(code)) == Exit(Some(code))
  {
    var n := if code < 0 then -code else code;
    var d := Digits(n);
    var word, body := if code < 0 then "-" + d else d, ExitBody(code);
    DigitsRoundTrip(n);
    DigitsAreInt(n);
    forall i | 0 <= i < |body| ensures body[i] != '%' && body[i] != '+' {
      if i >= |body| - |d| {
        assert body[i] == d[i - (|body| - |d|)];
        assert IsDigit(d[i - (|body| - |d|)]);
      }
    }
    PlainIsParsed(body);
    assert body[1] == 'e' && body[6..] == word && "^exit^" <= body;
    if code < 0 {
      NegativeIsInt(n, code);
    }
  }

  lemma NegativeIsInt(n: nat, code: int)
    requires n + code == 0
    ensures ParseInt("-" + Digits(n)) == Some(code)
  {
    DigitsRoundTrip(n);
    var s := "-" + Digits(n);
    assert s[1..] == Digits(n) && forall i :: 1 <= i < |s| ==> s[i] == Digits(n)[i - 1];
  }

  /** The notice of a page that has loaded is read as that. */
  lemma PageLoadIsReceived(body: string)
    requires body == PAGE_LOAD
    ensures Receive(body) == PageLoad
  {
    PageLoadIsPlain(body);
    PlainIsParsed(body);
  }

  lemma PageLoadIsPlain(s: string)
    requires s == PAGE_LOAD
    ensures forall i :: 0 <= i < |s| ==> s[i] != '%' && s[i] != '+'
  {
    assert '%' !in PAGE_LOAD && '+' !in PAGE_LOAD;
  }

  /** What an encoded text of any other kind is: all of it is logged to stdout at once. */
  lemma OtherTextIsLogged(text: string)
    requires IsBytes(text) && !HasPercentU(text) && text != PAGE_LOAD
    requires !("^exit^" <= text) && !("^err^" <= text) && !("^out^" <= text)
    ensures Receive(EncodeText(text)) == Log(Message(-1, text, false))
  {
    EncodedIsParsed(text);
  }

  lemma EncodedIsParsed(text: string)
    requires IsBytes(text)
    ensures Receive(EncodeText(text)) == if HasPercentU(text) then Raised else Parse(text)
  {
    EncodingHasNoPlus(text);
    WithoutPlus(EncodeText(text));
    UnquoteUndoesEncode(text);
  }

  /** A text with a stream but no number between it and the next caret, or no such caret, is logged to
      that stream at once, as it is. */
  lemma UnnumberedIsLogged(toStderr: bool, word: string, rest: string)
    requires '^' !in word && ParseInt(word).None? && (rest == "" || rest[0] == '^')
    requires var text := (if toStderr then "^err^" else "^out^") + word + rest; IsBytes(text) && !HasPercentU(text)
    ensures var text := (if toStderr then "^err^" else "^out^") + word + rest;
      Receive(EncodeText(text)) == Log(Message(-1, text, toStderr))
  {
    var stream := if toStderr then "^err^" else "^out^";
    var text := stream + word + rest;
    EncodedIsParsed(text);
    assert stream <= text && text[1] == stream[1];
    StreamDecides(text);
    forall j | 5 <= j < 5 + |word| ensures text[j] != '^' {
      assert text[j] == word[j - 5];
    }
    CaretBounds(text, 5);
    if rest != "" {
      CaretIsFirst(text, 5, 5 + |word|);
      assert text[5..5 + |word|] == word;
    }
  }

  /** An exit post without a number makes the handler raise. */
  lemma ExitWithoutNumber(word: string)
    requires IsBytes(word) && !HasPercentU("^exit^" + word) && ParseInt(word).None?
    ensures Receive(EncodeText("^exit^" + word)) == Exit(None)
  {
    var text := "^exit^" + word;
    EncodedIsParsed(text);
    assert text[1] == 'e' && text[6..] == word && "^exit^" <= text;
  }

  /** An exit post shuts the server down, unless it is to serve on: all that waits is printed, in the
      order of the queue, and the page is not answered. */
  lemma ExitShutsDown(s: Server, code: int)
    ensures Serve(s, ExitBody(code), false) == Reply(Server(All(s).expected, [], s.log + s.queue), true, false)
    ensures Serve(s, ExitBody(code), true) == Reply(s, false, true)
  {
    ExitIsReceived(code);
    AllInOrder(s);
  }
}

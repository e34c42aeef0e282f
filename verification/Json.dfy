/** A byte-at-a-time validator for JSON texts (RFC 8259), one char per byte, as a
    pushdown automaton; and the texts of JSON values, all of which it accepts. */
module Json {

  datatype Context = InKey | InValue | InArray

  datatype Scan =
    | BeginValue | BeginValueOrEmpty | BeginKey | BeginKeyOrEmpty
    | EndValue | EndTop
    | InString | InEscape | InHex(left: nat)
    | Minus | Zero | Digits | Point | Fraction | Exponent | ExponentSign | ExponentDigits
    | Literal(rest: string)
    | Invalid

  datatype State = State(scan: Scan, stack: seq<Context>)

  const START := State(BeginValue, [])

  const INVALID := State(Invalid, [])

  predicate IsSpace(c: char) {
    c == ' ' || c == '\t' || c == '\r' || c == '\n'
  }

  predicate IsDigit(c: char) {
    '0' <= c <= '9'
  }

  predicate IsHex(c: char) {
    IsDigit(c) || 'a' <= c <= 'f' || 'A' <= c <= 'F'
  }

  predicate IsEscape(c: char) {
    c == 'b' || c == 'f' || c == 'n' || c == 'r' || c == 't' || c == '\\' || c == '/' || c == '"'
  }

  function Top(s: seq<Context>): Context
    requires s != []
  {
    s[|s| - 1]
  }

  function Pop(stack: seq<Context>): State
    requires stack != []
  {
    State(if |stack| == 1 then EndTop else EndValue, stack[..|stack| - 1])
  }

  function Replace(stack: seq<Context>, c: Context): seq<Context>
    requires stack != []
  {
    stack[..|stack| - 1] + [c]
  }

  function OnBeginValue(stack: seq<Context>, c: char): State {
    if IsSpace(c) then State(BeginValue, stack)
    else if c == '{' then State(BeginKeyOrEmpty, stack + [InKey])
    else if c == '[' then State(BeginValueOrEmpty, stack + [InArray])
    else if c == '"' then State(InString, stack)
    else if c == '-' then State(Minus, stack)
    else if c == '0' then State(Zero, stack)
    else if IsDigit(c) then State(Digits, stack)
    else if c == 't' then State(Literal("rue"), stack)
    else if c == 'f' then State(Literal("alse"), stack)
    else if c == 'n' then State(Literal("ull"), stack)
    else INVALID
  }

  function OnEndValue(stack: seq<Context>, c: char): State {
    if stack == [] then (if IsSpace(c) then State(EndTop, []) else INVALID)
    else if IsSpace(c) then State(EndValue, stack)
    else match Top(stack)
      case InKey => if c == ':' then State(BeginValue, Replace(stack, InValue)) else INVALID
      case InValue =>
        if c == ',' then State(BeginKey, Replace(stack, InKey)) else if c == '}' then Pop(stack) else INVALID
      case InArray => if c == ',' then State(BeginValue, stack) else if c == ']' then Pop(stack) else INVALID
  }

  function OnBeginKey(stack: seq<Context>, c: char): State {
    if IsSpace(c) then State(BeginKey, stack) else if c == '"' then State(InString, stack) else INVALID
  }

  function Step(s: State, c: char): State {
    var stack := s.stack;
    match s.scan
    case BeginValue => OnBeginValue(stack, c)
    case BeginValueOrEmpty =>
      if IsSpace(c) then s else if c == ']' then OnEndValue(stack, c) else OnBeginValue(stack, c)
    case BeginKey => OnBeginKey(stack, c)
    case BeginKeyOrEmpty =>
      if IsSpace(c) then s
      else if c == '}' && stack != [] then Pop(stack)
      else OnBeginKey(stack, c)
    case EndValue => OnEndValue(stack, c)
    case EndTop => if IsSpace(c) then s else INVALID
    case InString =>
      if c == '"' then State(EndValue, stack)
      else if c == '\\' then State(InEscape, stack)
      else if c < ' ' then INVALID
      else s
    case InEscape =>
      if IsEscape(c) then State(InString, stack) else if c == 'u' then State(InHex(4), stack) else INVALID
    case InHex(left) =>
      if !IsHex(c) then INVALID else State(if left <= 1 then InString else InHex(left - 1), stack)
    case Minus => if c == '0' then State(Zero, stack) else if IsDigit(c) then State(Digits, stack) else INVALID
    case Zero => OnZero(stack, c)
    case Digits => if IsDigit(c) then s else OnZero(stack, c)
    case Point => if IsDigit(c) then State(Fraction, stack) else INVALID
    case Fraction =>
      if IsDigit(c) then s else if c == 'e' || c == 'E' then State(Exponent, stack) else OnEndValue(stack, c)
    case Exponent =>
      if c == '+' || c == '-' then State(ExponentSign, stack)
      else if IsDigit(c) then State(ExponentDigits, stack) else INVALID
    case ExponentSign => if IsDigit(c) then State(ExponentDigits, stack) else INVALID
    case ExponentDigits => if IsDigit(c) then s else OnEndValue(stack, c)
    case Literal(rest) =>
      if rest == "" || c != rest[0] then INVALID
      else State(if |rest| == 1 then EndValue else Literal(rest[1..]), stack)
    case Invalid => s
  }

  function OnZero(stack: seq<Context>, c: char): State {
    if c == '.' then State(Point, stack)
    else if c == 'e' || c == 'E' then State(Exponent, stack)
    else OnEndValue(stack, c)
  }

  function Feed(s: State, text: string): State
    decreases |text|
  {
    if text == "" then s else Feed(Step(s, text[0]), text[1..])
  }

  /** The text is one JSON value with white space around it. */
  predicate Valid(text: string) {
    Step(Feed(START, text), ' ').scan == EndTop
  }

  predicate AllSpace(s: string) {
    forall i | 0 <= i < |s| :: IsSpace(s[i])
  }

  lemma {:induction false} FeedAppend(s: State, a: string, b: string)
    ensures Feed(s, a + b) == Feed(Feed(s, a), b)
    decreases |a|
  {
    if a == "" {
      assert a + b == b;
    } else {
      assert (a + b)[1..] == a[1..] + b;
      FeedAppend(Step(s, a[0]), a[1..], b);
    }
  }

  // ---- a truncated object is never valid ----

  /** Inside an object's or array's brackets the stack is not empty; once they are
      closed the scanner is at the end of the text. */
  predicate Bracketed(s: State) {
    s.scan == EndTop || s.scan == Invalid || (s.stack != [] && s.scan != EndTop)
  }

  lemma {:induction false} StaysBracketed(s: State, text: string)
    requires Bracketed(s)
    ensures Bracketed(Feed(s, text))
    decreases |text|
  {
    if text != "" {
      StaysBracketed(Step(s, text[0]), text[1..]);
    }
  }

  lemma {:induction false} AfterTheEnd(s: State, text: string)
    requires s.scan == EndTop || s.scan == Invalid
    ensures Feed(s, text).scan == EndTop <==> s.scan == EndTop && AllSpace(text)
    ensures Feed(s, text).scan == EndTop || Feed(s, text).scan == Invalid
    decreases |text|
  {
    if text != "" {
      AfterTheEnd(Step(s, text[0]), text[1..]);
    }
  }

  /** A valid text that starts with a bracket leaves the scanner at the end. */
  lemma ObjectEnds(text: string)
    requires text != "" && (text[0] == '{' || text[0] == '[') && Valid(text)
    ensures Feed(START, text).scan == EndTop
  {
    StaysBracketed(Step(START, text[0]), text[1..]);
  }

  lemma EndTopComesFrom(s: State, c: char)
    requires Step(s, c).scan == EndTop
    ensures IsSpace(c) || c == '}' || c == ']'
  {
  }

  lemma ObjectEndsInBracket(text: string)
    requires text != "" && (text[0] == '{' || text[0] == '[') && Valid(text) && !IsSpace(text[|text| - 1])
    ensures text[|text| - 1] == '}' || text[|text| - 1] == ']'
  {
    ObjectEnds(text);
    var k := |text| - 1;
    assert text == text[..k] + [text[k]];
    FeedAppend(START, text[..k], [text[k]]);
    OneStep(Feed(START, text[..k]), text[k]);
    EndTopComesFrom(Feed(START, text[..k]), text[k]);
  }

  /** After a complete object, exactly white space may follow. */
  lemma OnlySpaceFollows(text: string, more: string)
    requires text != "" && text[0] == '{' && Valid(text)
    ensures Valid(text + more) <==> AllSpace(more)
  {
    ObjectEnds(text);
    FeedAppend(START, text, more);
    AfterTheEnd(Feed(START, text), more);
  }

  /** No proper prefix of a complete object, cut anywhere, is itself complete. */
  lemma TruncatedObjectInvalid(text: string, n: nat)
    requires text != "" && text[0] == '{' && Valid(text) && !IsSpace(text[|text| - 1])
    requires n < |text|
    ensures !Valid(text[..n])
  {
    assert text == text[..n] + text[n..];
    if n == 0 {
      assert text[..n] == "";
    } else if Valid(text[..n]) {
      assert text[n..][|text| - n - 1] == text[|text| - 1];
      OnlySpaceFollows(text[..n], text[n..]);
    }
  }

  // ---- every JSON value's text is valid ----

  /** A char of a string literal: itself, a two-char escape or \u with four hex digits. */
  datatype StrChar = Plain(c: char) | Escape(c: char) | Unicode(hex: string)

  datatype Value =
    | Null | True | False
    | Number(negative: bool, whole: string, fraction: string, exponent: string, exponentDigits: string)
    | Str(chars: seq<StrChar>)
    | Arr(space: string, items: seq<Item>)
    | Obj(space: string, members: seq<Member>)

  /** An element, with the white space before and after it. */
  datatype Item = Item(before: string, value: Value, after: string)

  /** A member, with the white space before it, before and after its colon and after it. */
  datatype Member =
    Member(before: string, key: seq<StrChar>, colon: string, between: string, value: Value, after: string)

  predicate AllDigits(s: string) {
    forall i | 0 <= i < |s| :: IsDigit(s[i])
  }

  predicate StrCharOk(c: StrChar) {
    match c
    case Plain(c) => c >= ' ' && c != '"' && c != '\\'
    case Escape(c) => IsEscape(c)
    case Unicode(hex) => |hex| == 4 && forall i | 0 <= i < 4 :: IsHex(hex[i])
  }

  predicate StrOk(s: seq<StrChar>) {
    forall i | 0 <= i < |s| :: StrCharOk(s[i])
  }

  predicate IsExponent(e: string) {
    e == "e" || e == "E" || e == "e+" || e == "E+" || e == "e-" || e == "E-"
  }

  /** Section 6 of RFC 8259: no leading zero, digits after a point and after an e. */
  predicate NumberOk(v: Value)
    requires v.Number?
  {
    && AllDigits(v.whole) && v.whole != "" && (v.whole[0] == '0' ==> v.whole == "0")
    && AllDigits(v.fraction) && AllDigits(v.exponentDigits)
    && (v.exponent == "" || IsExponent(v.exponent))
    && (v.exponent == "" <==> v.exponentDigits == "")
  }

  predicate Ok(v: Value)
    decreases v
  {
    match v
    case Number(_, _, _, _, _) => NumberOk(v)
    case Str(chars) => StrOk(chars)
    case Arr(space, items) =>
      AllSpace(space) && forall i | 0 <= i < |items| :: SpacedItem(items[i]) && Ok(items[i].value)
    case Obj(space, members) =>
      AllSpace(space) && forall i | 0 <= i < |members| :: SpacedMember(members[i]) && Ok(members[i].value)
    case _ => true
  }

  predicate SpacedItem(i: Item) {
    AllSpace(i.before) && AllSpace(i.after)
  }

  predicate SpacedMember(m: Member) {
    AllSpace(m.before) && StrOk(m.key) && AllSpace(m.colon) && AllSpace(m.between) && AllSpace(m.after)
  }

  function StrCharText(c: StrChar): string {
    match c
    case Plain(c) => [c]
    case Escape(c) => ['\\', c]
    case Unicode(hex) => "\\u" + hex
  }

  function CharsText(s: seq<StrChar>): string {
    if s == [] then "" else StrCharText(s[0]) + CharsText(s[1..])
  }

  function StringText(s: seq<StrChar>): string {
    ['"'] + (CharsText(s) + "\"")
  }

  function WholeText(v: Value): string
    requires v.Number?
  {
    if v.negative then ['-'] + v.whole else v.whole
  }

  function FractionText(fraction: string): string {
    if fraction == "" then "" else ['.'] + fraction
  }

  function NumberText(v: Value): string
    requires v.Number?
  {
    WholeText(v) + (FractionText(v.fraction) + (v.exponent + v.exponentDigits))
  }

  /** The text of a value, with white space of its own in every place where some is allowed. */
  function Text(v: Value): string
    decreases v, 1
  {
    match v
    case Null => ['n'] + "ull"
    case True => ['t'] + "rue"
    case False => ['f'] + "alse"
    case Number(_, _, _, _, _) => NumberText(v)
    case Str(chars) => StringText(chars)
    case Arr(space, items) => ['['] + (space + (ItemsText(items) + "]"))
    case Obj(space, members) => ['{'] + (space + (MembersText(members) + "}"))
  }

  function ItemsText(items: seq<Item>): string
    decreases items, 0
  {
    if items == [] then ""
    else
      var i := items[0];
      i.before + (Text(i.value) + (i.after + if |items| == 1 then "" else [','] + ItemsText(items[1..])))
  }

  function MembersText(members: seq<Member>): string
    decreases members, 0
  {
    if members == [] then ""
    else
      var m := members[0];
      var more := if |members| == 1 then "" else [','] + MembersText(members[1..]);
      m.before + (StringText(m.key) + (m.colon + ([':'] + (m.between + (Text(m.value) + (m.after + more))))))
  }

  /** A complete value has been read: what follows is judged as at EndValue. */
  predicate Complete(s: State, stack: seq<Context>) {
    && s.stack == stack
    && (s.scan == EndValue || s.scan == Zero || s.scan == Digits || s.scan == Fraction || s.scan == ExponentDigits
        || (s.scan == EndTop && stack == []))
  }

  predicate Delimiter(c: char) {
    IsSpace(c) || c == ',' || c == ':' || c == ']' || c == '}'
  }

  lemma CompleteSteps(s: State, stack: seq<Context>, c: char)
    requires Complete(s, stack) && Delimiter(c)
    ensures Step(s, c) == OnEndValue(stack, c)
  {
  }

  lemma {:induction false} SkipSpaces(s: State, ws: string)
    requires AllSpace(ws) && s.scan in {BeginValue, BeginKey, BeginValueOrEmpty, BeginKeyOrEmpty}
    ensures Feed(s, ws) == s
    decreases |ws|
  {
    if ws != "" {
      SkipSpaces(s, ws[1..]);
    }
  }

  lemma {:induction false} SpacesAfter(s: State, stack: seq<Context>, ws: string)
    requires AllSpace(ws) && Complete(s, stack)
    ensures Complete(Feed(s, ws), stack)
    decreases |ws|
  {
    if ws != "" {
      SpacesAfter(Step(s, ws[0]), stack, ws[1..]);
    }
  }

  lemma {:induction false} CharsRead(s: seq<StrChar>, stack: seq<Context>)
    requires StrOk(s)
    ensures Feed(State(InString, stack), CharsText(s)) == State(InString, stack)
  {
    if s != [] {
      var st := State(InString, stack);
      var t := StrCharText(s[0]);
      assert Feed(st, t) == st by {
        match s[0]
        case Plain(c) => assert t[1..] == "";
        case Escape(c) => assert t[1..] == [c] && t[2..] == "";
        case Unicode(h) =>
          assert t == ['\\', 'u', h[0], h[1], h[2], h[3]];
          SixSteps(st, t);
      }
      FeedAppend(st, t, CharsText(s[1..]));
      CharsRead(s[1..], stack);
    }
  }

  lemma SixSteps(s: State, t: string)
    requires |t| == 6
    ensures Feed(s, t) == Step(Step(Step(Step(Step(Step(s, t[0]), t[1]), t[2]), t[3]), t[4]), t[5])
  {
    assert t == [t[0], t[1]] + ([t[2], t[3]] + [t[4], t[5]]);
    FeedAppend(s, [t[0], t[1]], [t[2], t[3]] + [t[4], t[5]]);
    TwoSteps(s, t[0], t[1]);
    var s2 := Step(Step(s, t[0]), t[1]);
    FeedAppend(s2, [t[2], t[3]], [t[4], t[5]]);
    TwoSteps(s2, t[2], t[3]);
    TwoSteps(Step(Step(s2, t[2]), t[3]), t[4], t[5]);
  }

  lemma TwoSteps(s: State, a: char, b: char)
    ensures Feed(s, [a, b]) == Step(Step(s, a), b)
  {
    var t := [a, b];
    assert t[1..] == [b];
    OneStep(Step(s, a), b);
  }

  lemma OneStep(s: State, c: char)
    ensures Feed(s, [c]) == Step(s, c)
  {
    assert [c][1..] == "";
  }

  /** Reading c and then more. */
  lemma Cons(s: State, c: char, more: string)
    ensures Feed(s, [c] + more) == Feed(Step(s, c), more)
  {
    FeedAppend(s, [c], more);
    OneStep(s, c);
  }

  /** Where a string may begin. */
  predicate WantsQuote(s: State) {
    s.scan == BeginValue || s.scan == BeginKey || s.scan == BeginValueOrEmpty || s.scan == BeginKeyOrEmpty
  }

  lemma StringRead(s: seq<StrChar>, from: State)
    requires StrOk(s) && WantsQuote(from)
    ensures Feed(from, StringText(s)) == State(EndValue, from.stack)
  {
    var inside := State(InString, from.stack);
    var rest := CharsText(s) + "\"";
    Cons(from, '"', rest);
    FeedAppend(inside, CharsText(s), "\"");
    CharsRead(s, from.stack);
    OneStep(inside, '"');
  }

  lemma {:induction false} DigitsRead(s: State, digits: string)
    requires AllDigits(digits) && (s.scan == Digits || s.scan == Fraction || s.scan == ExponentDigits)
    ensures Feed(s, digits) == s
    decreases |digits|
  {
    if digits != "" {
      DigitsRead(s, digits[1..]);
    }
  }

  /** Where a value may begin: here BeginValueOrEmpty acts as BeginValue on anything but ]. */
  predicate WantsValue(s: State) {
    s.scan == BeginValue || s.scan == BeginValueOrEmpty
  }

  lemma UnsignedRead(whole: string, from: State)
    requires AllDigits(whole) && whole != "" && (whole[0] == '0' ==> whole == "0")
    requires WantsValue(from) || from.scan == Minus
    ensures Feed(from, whole) in {State(Zero, from.stack), State(Digits, from.stack)}
  {
    var first, more := whole[0], whole[1..];
    assert whole == [first] + more;
    Cons(from, first, more);
    if first == '0' {
      assert more == "";
    } else {
      DigitsRead(State(Digits, from.stack), more);
    }
  }

  lemma WholeRead(v: Value, from: State)
    requires v.Number? && NumberOk(v) && WantsValue(from)
    ensures Feed(from, WholeText(v)) in {State(Zero, from.stack), State(Digits, from.stack)}
  {
    if v.negative {
      Cons(from, '-', v.whole);
      UnsignedRead(v.whole, State(Minus, from.stack));
    } else {
      UnsignedRead(v.whole, from);
    }
  }

  lemma FractionRead(v: Value, from: State)
    requires v.Number? && NumberOk(v) && from.scan in {Zero, Digits}
    ensures Feed(from, FractionText(v.fraction)) in {from, State(Fraction, from.stack)}
  {
    if v.fraction != "" {
      var more := v.fraction[1..];
      assert v.fraction == [v.fraction[0]] + more;
      Cons(from, '.', v.fraction);
      Cons(State(Point, from.stack), v.fraction[0], more);
      DigitsRead(State(Fraction, from.stack), more);
    }
  }

  lemma ExponentDigitsRead(digits: string, from: State)
    requires AllDigits(digits) && digits != "" && from.scan in {Exponent, ExponentSign}
    ensures Feed(from, digits) == State(ExponentDigits, from.stack)
  {
    assert digits == [digits[0]] + digits[1..];
    Cons(from, digits[0], digits[1..]);
    DigitsRead(State(ExponentDigits, from.stack), digits[1..]);
  }

  lemma ExponentRead(v: Value, from: State)
    requires v.Number? && NumberOk(v) && from.scan in {Zero, Digits, Fraction}
    ensures Complete(Feed(from, v.exponent + v.exponentDigits), from.stack)
  {
    var digits := v.exponentDigits;
    if v.exponent == "" {
      assert v.exponent + digits == "";
    } else {
      FeedAppend(from, v.exponent, digits);
      var e := State(Exponent, from.stack);
      if |v.exponent| == 1 {
        OneStep(from, v.exponent[0]);
        assert v.exponent == [v.exponent[0]];
      } else {
        TwoSteps(from, v.exponent[0], v.exponent[1]);
        assert v.exponent == [v.exponent[0], v.exponent[1]];
      }
      ExponentDigitsRead(digits, Feed(from, v.exponent));
    }
  }

  lemma NumberRead(v: Value, from: State)
    requires v.Number? && NumberOk(v) && WantsValue(from)
    ensures Complete(Feed(from, NumberText(v)), from.stack)
  {
    var tail := v.exponent + v.exponentDigits;
    FeedAppend(from, WholeText(v), FractionText(v.fraction) + tail);
    WholeRead(v, from);
    var s1 := Feed(from, WholeText(v));
    FeedAppend(s1, FractionText(v.fraction), tail);
    FractionRead(v, s1);
    ExponentRead(v, Feed(s1, FractionText(v.fraction)));
  }

  lemma {:induction false} LiteralRead(rest: string, stack: seq<Context>)
    requires rest != ""
    ensures Feed(State(Literal(rest), stack), rest) == State(EndValue, stack)
    decreases |rest|
  {
    var s := State(Literal(rest), stack);
    if |rest| == 1 {
      assert rest[1..] == "";
    } else {
      LiteralRead(rest[1..], stack);
    }
  }

  lemma WordRead(first: char, rest: string, from: State)
    requires WantsValue(from)
    requires (first == 'n' && rest == "ull") || (first == 't' && rest == "rue") || (first == 'f' && rest == "alse")
    ensures Feed(from, [first] + rest) == State(EndValue, from.stack)
  {
    Cons(from, first, rest);
    LiteralRead(rest, from.stack);
  }

  /** Every value is read to its end, and leaves the stack as it found it. */
  lemma {:induction false} ValueRead(v: Value, from: State)
    requires Ok(v) && WantsValue(from)
    ensures Complete(Feed(from, Text(v)), from.stack)
    decreases v, 1
  {
    match v
    case Null => WordRead('n', "ull", from);
    case True => WordRead('t', "rue", from);
    case False => WordRead('f', "alse", from);
    case Number(_, _, _, _, _) => NumberRead(v, from);
    case Str(chars) => StringRead(chars, from);
    case Arr(space, items) => ArrayRead(space, items, from);
    case Obj(space, members) => ObjectRead(space, members, from);
  }

  /** What closing a bracket leaves. */
  lemma Popped(stack: seq<Context>, c: Context)
    ensures Complete(Pop(stack + [c]), stack)
    ensures Top(stack + [c]) == c
  {
    assert (stack + [c])[..|stack|] == stack;
  }

  lemma {:induction false} ArrayRead(space: string, items: seq<Item>, from: State)
    requires AllSpace(space) && (forall i | 0 <= i < |items| :: SpacedItem(items[i]) && Ok(items[i].value))
    requires WantsValue(from)
    ensures Complete(Feed(from, ['['] + (space + (ItemsText(items) + "]"))), from.stack)
    decreases items, 1
  {
    var body := ItemsText(items);
    var inside := from.stack + [InArray];
    var begun := State(BeginValueOrEmpty, inside);
    Cons(from, '[', space + (body + "]"));
    FeedAppend(begun, space, body + "]");
    SkipSpaces(begun, space);
    FeedAppend(begun, body, "]");
    OneStep(Feed(begun, body), ']');
    Popped(from.stack, InArray);
    if items == [] {
      assert Step(begun, ']') == OnEndValue(inside, ']');
    } else {
      ItemsRead(items, begun);
      CompleteSteps(Feed(begun, body), inside, ']');
    }
  }

  lemma {:induction false} ItemsRead(items: seq<Item>, from: State)
    requires items != [] && forall i | 0 <= i < |items| :: SpacedItem(items[i]) && Ok(items[i].value)
    requires WantsValue(from) && from.stack != [] && Top(from.stack) == InArray
    ensures Complete(Feed(from, ItemsText(items)), from.stack)
    decreases items, 0
  {
    var i := items[0];
    var more := if |items| == 1 then "" else [','] + ItemsText(items[1..]);
    assert i.value < i;
    SpacedRead(i.before, i.value, i.after, from, more);
    if |items| > 1 {
      var s := Feed(Feed(from, Text(i.value)), i.after);
      CompleteSteps(s, from.stack, ',');
      Cons(s, ',', ItemsText(items[1..]));
      ItemsRead(items[1..], State(BeginValue, from.stack));
    }
  }

  /** A value between white space, and what follows. */
  lemma {:induction false} SpacedRead(before: string, v: Value, after: string, from: State, more: string)
    requires AllSpace(before) && Ok(v) && AllSpace(after) && WantsValue(from)
    ensures var s := Feed(Feed(from, Text(v)), after);
            Complete(s, from.stack) && Feed(from, before + (Text(v) + (after + more))) == Feed(s, more)
    decreases v, 2
  {
    FeedAppend(from, before, Text(v) + (after + more));
    SkipSpaces(from, before);
    FeedAppend(from, Text(v), after + more);
    ValueRead(v, from);
    FeedAppend(Feed(from, Text(v)), after, more);
    SpacesAfter(Feed(from, Text(v)), from.stack, after);
  }

  lemma {:induction false} ObjectRead(space: string, members: seq<Member>, from: State)
    requires AllSpace(space) && (forall i | 0 <= i < |members| :: SpacedMember(members[i]) && Ok(members[i].value))
    requires WantsValue(from)
    ensures Complete(Feed(from, ['{'] + (space + (MembersText(members) + "}"))), from.stack)
    decreases members, 1
  {
    var body := MembersText(members);
    var begun := State(BeginKeyOrEmpty, from.stack + [InKey]);
    Cons(from, '{', space + (body + "}"));
    FeedAppend(begun, space, body + "}");
    SkipSpaces(begun, space);
    FeedAppend(begun, body, "}");
    OneStep(Feed(begun, body), '}');
    Popped(from.stack, InKey);
    Popped(from.stack, InValue);
    if members != [] {
      MembersRead(members, from.stack, begun);
      CompleteSteps(Feed(begun, body), from.stack + [InValue], '}');
    }
  }

  lemma {:induction false} MembersRead(members: seq<Member>, stack: seq<Context>, from: State)
    requires members != [] && forall i | 0 <= i < |members| :: SpacedMember(members[i]) && Ok(members[i].value)
    requires from.stack == stack + [InKey] && (from.scan == BeginKey || from.scan == BeginKeyOrEmpty)
    ensures Complete(Feed(from, MembersText(members)), stack + [InValue])
    decreases members, 0
  {
    var m := members[0];
    var more := if |members| == 1 then "" else [','] + MembersText(members[1..]);
    var start := State(BeginValue, stack + [InValue]);
    KeyRead(m, stack, from, m.between + (Text(m.value) + (m.after + more)));
    assert m.value < m;
    SpacedRead(m.between, m.value, m.after, start, more);
    if |members| > 1 {
      CommaRead(Feed(Feed(start, Text(m.value)), m.after), stack, MembersText(members[1..]));
      MembersRead(members[1..], stack, State(BeginKey, stack + [InKey]));
    }
  }

  /** The comma between two members. */
  lemma CommaRead(s: State, stack: seq<Context>, more: string)
    requires Complete(s, stack + [InValue])
    ensures Feed(s, [','] + more) == Feed(State(BeginKey, stack + [InKey]), more)
  {
    CompleteSteps(s, stack + [InValue], ',');
    Swapped(stack, InValue, InKey);
    Cons(s, ',', more);
  }

  lemma Swapped(stack: seq<Context>, c: Context, d: Context)
    ensures Replace(stack + [c], d) == stack + [d] && Top(stack + [c]) == c
  {
    assert (stack + [c])[..|stack|] == stack;
  }

  /** A key and its colon. */
  lemma KeyRead(m: Member, stack: seq<Context>, from: State, more: string)
    requires SpacedMember(m)
    requires from.stack == stack + [InKey] && (from.scan == BeginKey || from.scan == BeginKeyOrEmpty)
    ensures Feed(from, m.before + (StringText(m.key) + (m.colon + ([':'] + more))))
         == Feed(State(BeginValue, stack + [InValue]), more)
  {
    FeedAppend(from, m.before, StringText(m.key) + (m.colon + ([':'] + more)));
    SkipSpaces(from, m.before);
    FeedAppend(from, StringText(m.key), m.colon + ([':'] + more));
    StringRead(m.key, from);
    var s := State(EndValue, stack + [InKey]);
    FeedAppend(s, m.colon, [':'] + more);
    SpacesAfter(s, s.stack, m.colon);
    CompleteSteps(Feed(s, m.colon), s.stack, ':');
    Swapped(stack, InKey, InValue);
    Cons(Feed(s, m.colon), ':', more);
  }

  /** The validator accepts the text of every value, whatever white space surrounds it. */
  lemma EveryValueIsValid(before: string, v: Value, after: string)
    requires AllSpace(before) && Ok(v) && AllSpace(after)
    ensures Valid(before + (Text(v) + after))
  {
    assert after + "" == after;
    SpacedRead(before, v, after, START, "");
    CompleteSteps(Feed(Feed(START, Text(v)), after), [], ' ');
  }

  lemma EmptyObjectIsValid()
    ensures Valid("{}")
  {
    EveryValueIsValid("", Obj("", []), "");
    assert Text(Obj("", [])) == "{}";
    assert "" + ("{}" + "") == "{}";
  }

  /** Cutting an object's text short anywhere leaves text that is not valid. */
  lemma TruncatedTextInvalid(space: string, members: seq<Member>, n: nat)
    requires Ok(Obj(space, members)) && n < |Text(Obj(space, members))|
    ensures Valid(Text(Obj(space, members))) && !Valid(Text(Obj(space, members))[..n])
  {
    var text := Text(Obj(space, members));
    var body := MembersText(members);
    assert text[0] == '{' && text == (['{'] + (space + body)) + ['}'];
    ValueRead(Obj(space, members), START);
    TruncatedObjectInvalid(text, n);
  }
}

/** The validator accepts nothing but JSON: every text it accepts is the text of a value, with white
    space around it, and here it is parsed. */
module JsonGrammar {
  import opened Json

  /** The rest of a valid text. */
  predicate Accepts(s: State, t: string) {
    Step(Feed(s, t), ' ').scan == EndTop
  }

  lemma AcceptsRest(s: State, a: string, b: string)
    ensures Accepts(s, a + b) <==> Accepts(Feed(s, a), b)
  {
    FeedAppend(s, a, b);
  }

  lemma NothingAfterInvalid(s: State, t: string)
    requires Accepts(s, t)
    ensures !s.scan.Invalid?
  {
    if s.scan.Invalid? {
      AfterTheEnd(s, t);
    }
  }

  /** Something must follow, and be accepted. */
  lemma More(s: State, t: string)
    requires Accepts(s, t) && Step(s, ' ').scan != EndTop
    ensures t != "" && Accepts(Step(s, t[0]), t[1..]) && !Step(s, t[0]).scan.Invalid? && t == [t[0]] + t[1..]
  {
    assert t != "";
    NothingAfterInvalid(Step(s, t[0]), t[1..]);
  }

  lemma Assoc(a: string, b: string, c: string)
    ensures (a + b) + c == a + (b + c)
  {
  }

  predicate NoDigit(t: string) {
    t == "" || !IsDigit(t[0])
  }

  predicate NoSpace(t: string) {
    t == "" || !IsSpace(t[0])
  }

  lemma {:induction false} ParseSpaces(t: string) returns (ws: string, rest: string)
    ensures t == ws + rest && AllSpace(ws) && NoSpace(rest)
  {
    if NoSpace(t) {
      ws, rest := "", t;
    } else {
      ws, rest := ParseSpaces(t[1..]);
      assert t == [t[0]] + t[1..];
      Assoc([t[0]], ws, rest);
      ws := [t[0]] + ws;
    }
  }

  lemma {:induction false} ParseDigits(t: string) returns (digits: string, rest: string)
    ensures t == digits + rest && AllDigits(digits) && NoDigit(rest) && (digits == "" <==> NoDigit(t))
  {
    if NoDigit(t) {
      digits, rest := "", t;
    } else {
      digits, rest := ParseDigits(t[1..]);
      assert t == [t[0]] + t[1..];
      Assoc([t[0]], digits, rest);
      digits := [t[0]] + digits;
    }
  }

  // ---- strings ----

  lemma ParseStrChar(stack: seq<Context>, t: string) returns (c: StrChar, rest: string)
    requires Accepts(State(InString, stack), t) && t != "" && t[0] != '"'
    ensures StrCharOk(c) && t == StrCharText(c) + rest && Accepts(State(InString, stack), rest)
  {
    var s := State(InString, stack);
    More(s, t);
    if t[0] != '\\' {
      c, rest := Plain(t[0]), t[1..];
    } else {
      var u := t[1..];
      More(State(InEscape, stack), u);
      if IsEscape(u[0]) {
        c, rest := Escape(u[0]), u[1..];
        assert ['\\'] + ([u[0]] + rest) == ['\\', u[0]] + rest;
      } else {
        var hex;
        hex, rest := ParseHex(stack, u[1..], 4);
        c := Unicode(hex);
        assert ['\\'] + (['u'] + (hex + rest)) == ("\\u" + hex) + rest;
      }
    }
  }

  lemma {:induction false} ParseHex(stack: seq<Context>, t: string, n: nat) returns (hex: string, rest: string)
    requires n > 0 && Accepts(State(InHex(n), stack), t)
    ensures |hex| == n && (forall i | 0 <= i < n :: IsHex(hex[i])) && t == hex + rest
    ensures Accepts(State(InString, stack), rest)
  {
    More(State(InHex(n), stack), t);
    if n == 1 {
      hex, rest := [t[0]], t[1..];
    } else {
      hex, rest := ParseHex(stack, t[1..], n - 1);
      Assoc([t[0]], hex, rest);
      hex := [t[0]] + hex;
    }
  }

  /** The chars of a string up to its closing quote. */
  lemma {:induction false} ParseChars(stack: seq<Context>, t: string) returns (cs: seq<StrChar>, rest: string)
    requires Accepts(State(InString, stack), t)
    ensures StrOk(cs) && t == CharsText(cs) + (['"'] + rest) && |rest| < |t| && Accepts(State(EndValue, stack), rest)
    decreases |t|
  {
    More(State(InString, stack), t);
    if t[0] == '"' {
      cs, rest := [], t[1..];
      assert CharsText(cs) == "" && "" + t == t;
    } else {
      var c, u := ParseStrChar(stack, t);
      assert |StrCharText(c)| > 0;
      cs, rest := ParseChars(stack, u);
      CharsMore(c, cs, ['"'] + rest);
      cs := [c] + cs;
    }
  }

  lemma CharsMore(c: StrChar, cs: seq<StrChar>, t: string)
    ensures CharsText([c] + cs) + t == StrCharText(c) + (CharsText(cs) + t)
  {
    assert ([c] + cs)[1..] == cs;
    Assoc(StrCharText(c), CharsText(cs), t);
  }

  lemma ParseString(stack: seq<Context>, t: string) returns (cs: seq<StrChar>, rest: string)
    requires t != "" && t[0] == '"' && Accepts(State(InString, stack), t[1..])
    ensures StrOk(cs) && t == StringText(cs) + rest && |rest| < |t| && Accepts(State(EndValue, stack), rest)
  {
    cs, rest := ParseChars(stack, t[1..]);
    assert t == ['"'] + t[1..];
    Assoc(['"'], CharsText(cs) + "\"", rest);
    Assoc(CharsText(cs), "\"", rest);
  }

  // ---- numbers ----

  /** A number may end here. */
  lemma NumberEnds(s: State, t: string)
    requires Complete(s, s.stack) && Accepts(s, t) && (t != "" ==> Step(s, t[0]) == OnEndValue(s.stack, t[0]))
    ensures Accepts(State(EndValue, s.stack), t)
  {
    CompleteSteps(s, s.stack, ' ');
  }

  lemma ParseUnsigned(s: State, t: string) returns (whole: string, rest: string, s': State)
    requires WantsValue(s) || s.scan == Minus
    requires t != "" && IsDigit(t[0]) && Accepts(s, t)
    ensures t == whole + rest && AllDigits(whole) && whole != "" && (whole[0] == '0' ==> whole == "0")
    ensures s'.stack == s.stack && Accepts(s', rest) && (s'.scan == Zero || (s'.scan == Digits && NoDigit(rest)))
  {
    assert t == [t[0]] + t[1..];
    if t[0] == '0' {
      whole, rest, s' := "0", t[1..], State(Zero, s.stack);
    } else {
      var more;
      more, rest := ParseDigits(t[1..]);
      s' := State(Digits, s.stack);
      AcceptsRest(s', more, rest);
      DigitsRead(s', more);
      whole := [t[0]] + more;
      Assoc([t[0]], more, rest);
    }
  }

  lemma ParseFraction(s: State, t: string) returns (fraction: string, rest: string, s': State)
    requires s.scan == Zero || (s.scan == Digits && NoDigit(t))
    requires Accepts(s, t)
    ensures t == FractionText(fraction) + rest && AllDigits(fraction)
    ensures s'.stack == s.stack && Accepts(s', rest)
    ensures (s'.scan == Fraction && NoDigit(rest)) || (s' == s && (rest == "" || rest[0] != '.') && rest == t)
  {
    if t != "" && t[0] == '.' {
      var u := t[1..];
      More(State(Point, s.stack), u);
      fraction, rest := ParseDigits(u);
      s' := State(Fraction, s.stack);
      assert fraction == [u[0]] + fraction[1..];
      assert u[1..] == fraction[1..] + rest;
      AcceptsRest(s', fraction[1..], rest);
      DigitsRead(s', fraction[1..]);
      assert t == ['.'] + u;
      Assoc(['.'], fraction, rest);
    } else {
      fraction, rest, s' := "", t, s;
    }
  }

  /** The digits of an exponent. */
  lemma ParseExponentDigits(s: State, t: string) returns (digits: string, rest: string)
    requires s.scan in {Exponent, ExponentSign} && Accepts(s, t) && t != "" && IsDigit(t[0])
    ensures t == digits + rest && AllDigits(digits) && digits != "" && Accepts(State(EndValue, s.stack), rest)
  {
    digits, rest := ParseDigits(t);
    var s' := State(ExponentDigits, s.stack);
    assert digits == [t[0]] + digits[1..];
    assert t[1..] == digits[1..] + rest;
    AcceptsRest(s', digits[1..], rest);
    DigitsRead(s', digits[1..]);
    NumberEnds(s', rest);
  }

  lemma ParseSignedDigits(s: State, t: string) returns (sign: string, digits: string, rest: string)
    requires s.scan == Exponent && Accepts(s, t)
    ensures t == (sign + digits) + rest && (sign == "" || sign == "+" || sign == "-")
    ensures AllDigits(digits) && digits != "" && Accepts(State(EndValue, s.stack), rest)
  {
    More(s, t);
    if IsDigit(t[0]) {
      digits, rest := ParseExponentDigits(s, t);
      sign := "";
      assert sign + digits == digits;
    } else {
      var u := t[1..];
      More(State(ExponentSign, s.stack), u);
      digits, rest := ParseExponentDigits(State(ExponentSign, s.stack), u);
      sign := [t[0]];
      Assoc(sign, digits, rest);
    }
  }

  lemma ParseExponent(s: State, t: string) returns (exponent: string, digits: string, rest: string)
    requires s.scan in {Zero, Digits, Fraction} && Accepts(s, t)
    requires s.scan == Zero || NoDigit(t)
    requires s.scan == Fraction || t == "" || t[0] != '.'
    ensures t == (exponent + digits) + rest && AllDigits(digits) && (exponent == "" <==> digits == "")
    ensures exponent == "" || IsExponent(exponent)
    ensures Accepts(State(EndValue, s.stack), rest)
  {
    if t != "" && (t[0] == 'e' || t[0] == 'E') {
      var u := t[1..];
      var sign;
      sign, digits, rest := ParseSignedDigits(State(Exponent, s.stack), u);
      exponent := [t[0]] + sign;
      assert t == [t[0]] + u;
      Assoc([t[0]], sign, digits);
      Assoc([t[0]], sign + digits, rest);
    } else {
      exponent, digits, rest := "", "", t;
      NumberEnds(s, t);
    }
  }

  /** A number without its sign. */
  lemma ParseMagnitude(s: State, t: string)
    returns (whole: string, fraction: string, e: string, digits: string, rest: string)
    requires WantsValue(s) || s.scan == Minus
    requires t != "" && IsDigit(t[0]) && Accepts(s, t)
    ensures NumberOk(Number(false, whole, fraction, e, digits))
    ensures t == whole + (FractionText(fraction) + ((e + digits) + rest)) && Accepts(State(EndValue, s.stack), rest)
  {
    var u, s1 , w, s2;
    whole, u, s1 := ParseUnsigned(s, t);
    fraction, w, s2 := ParseFraction(s1, u);
    e, digits, rest := ParseExponent(s2, w);
  }

  lemma ParseNumber(s: State, t: string) returns (v: Value, rest: string)
    requires WantsValue(s) && t != "" && (t[0] == '-' || IsDigit(t[0])) && Accepts(s, t)
    ensures v.Number? && NumberOk(v) && t == NumberText(v) + rest && Accepts(State(EndValue, s.stack), rest)
  {
    var whole, fraction, e, digits;
    if t[0] == '-' {
      More(State(Minus, s.stack), t[1..]);
      whole, fraction, e, digits, rest := ParseMagnitude(State(Minus, s.stack), t[1..]);
      assert t == ['-'] + t[1..];
      Assoc(['-'], whole, FractionText(fraction) + ((e + digits) + rest));
    } else {
      whole, fraction, e, digits, rest := ParseMagnitude(s, t);
    }
    v := Number(t[0] == '-', whole, fraction, e, digits);
    Assoc(WholeText(v), FractionText(fraction) + (e + digits), rest);
    Assoc(FractionText(fraction), e + digits, rest);
  }

  // ---- literals ----

  lemma {:induction false} ParseLiteral(word: string, stack: seq<Context>, t: string) returns (rest: string)
    requires word != "" && Accepts(State(Literal(word), stack), t)
    ensures t == word + rest && Accepts(State(EndValue, stack), rest)
  {
    More(State(Literal(word), stack), t);
    if |word| == 1 {
      rest := t[1..];
      assert word == [t[0]];
    } else {
      rest := ParseLiteral(word[1..], stack, t[1..]);
      assert word == [t[0]] + word[1..];
      Assoc([t[0]], word[1..], rest);
    }
  }

  // ---- values ----

  /** White space after a value. */
  lemma {:induction false} SpacesAtEnd(s: State, ws: string)
    requires AllSpace(ws) && (s.scan == EndValue || (s.scan == EndTop && s.stack == []))
    ensures var s' := Feed(s, ws); s'.stack == s.stack && (s'.scan == EndValue || (s'.scan == EndTop && s.stack == []))
    decreases |ws|
  {
    if ws != "" {
      SpacesAtEnd(Step(s, ws[0]), ws[1..]);
    }
  }

  /** At the end of the text, EndTop judges what follows as EndValue does. */
  lemma AtEnd(s: State, t: string)
    requires s.scan == EndValue || (s.scan == EndTop && s.stack == [])
    requires Accepts(s, t)
    ensures Accepts(State(EndValue, s.stack), t)
  {
  }

  lemma ParseSpacesAfter(stack: seq<Context>, t: string) returns (ws: string, rest: string)
    requires Accepts(State(EndValue, stack), t)
    ensures t == ws + rest && AllSpace(ws) && NoSpace(rest) && Accepts(State(EndValue, stack), rest)
  {
    ws, rest := ParseSpaces(t);
    var s := State(EndValue, stack);
    AcceptsRest(s, ws, rest);
    SpacesAtEnd(s, ws);
    AtEnd(Feed(s, ws), rest);
  }

  lemma ParseSpacesBefore(s: State, t: string) returns (ws: string, rest: string)
    requires s.scan == BeginValue || s.scan == BeginKey || s.scan == BeginValueOrEmpty || s.scan == BeginKeyOrEmpty
    requires Accepts(s, t)
    ensures t == ws + rest && AllSpace(ws) && rest != "" && !IsSpace(rest[0]) && Accepts(s, rest)
  {
    ws, rest := ParseSpaces(t);
    AcceptsRest(s, ws, rest);
    SkipSpaces(s, ws);
    More(s, rest);
  }

  /** The state after a closing bracket. */
  lemma Closed(stack: seq<Context>, c: Context, t: string)
    requires Accepts(Pop(stack + [c]), t)
    ensures Accepts(State(EndValue, stack), t)
  {
    assert (stack + [c])[..|stack|] == stack;
    AtEnd(Pop(stack + [c]), t);
  }

  /** A value is next. */
  predicate ValueNext(s: State, t: string) {
    WantsValue(s) && t != "" && !IsSpace(t[0]) && (s.scan == BeginValueOrEmpty ==> t[0] != ']')
  }

  lemma {:induction false} ParseValue(s: State, t: string) returns (v: Value, rest: string)
    requires ValueNext(s, t) && Accepts(s, t)
    ensures Ok(v) && t == Text(v) + rest && |rest| < |t| && Accepts(State(EndValue, s.stack), rest)
    decreases |t|, 0
  {
    var c, u := t[0], t[1..];
    assert t == [c] + u;
    NothingAfterInvalid(Step(s, c), u);
    if c == '{' {
      v, rest := ParseObject(s.stack, u);
      Assoc([c], Text(v)[1..], rest);
    } else if c == '[' {
      v, rest := ParseArray(s.stack, u);
      Assoc([c], Text(v)[1..], rest);
    } else if c == '"' {
      var cs;
      cs, rest := ParseString(s.stack, t);
      v := Str(cs);
    } else if c == '-' || IsDigit(c) {
      v, rest := ParseNumber(s, t);
    } else {
      v, rest := ParseWord(s, t);
    }
  }

  lemma ParseWord(s: State, t: string) returns (v: Value, rest: string)
    requires ValueNext(s, t) && Accepts(s, t) && (t[0] == 't' || t[0] == 'f' || t[0] == 'n')
    ensures Ok(v) && t == Text(v) + rest && |rest| < |t| && Accepts(State(EndValue, s.stack), rest)
  {
    assert t == [t[0]] + t[1..];
    v := if t[0] == 't' then True else if t[0] == 'f' then False else Null;
    var word := if t[0] == 't' then "rue" else if t[0] == 'f' then "alse" else "ull";
    rest := ParseLiteral(word, s.stack, t[1..]);
    Assoc([t[0]], word, rest);
  }

  /** A value with white space around it. */
  lemma {:induction false} ParseSpaced(stack: seq<Context>, t: string)
    returns (before: string, v: Value, after: string, rest: string)
    requires Accepts(State(BeginValue, stack), t)
    ensures AllSpace(before) && Ok(v) && AllSpace(after) && t == before + (Text(v) + (after + rest))
    ensures |rest| < |t| && NoSpace(rest) && Accepts(State(EndValue, stack), rest)
    decreases |t|, 1
  {
    var u, w;
    before, u := ParseSpacesBefore(State(BeginValue, stack), t);
    v, w := ParseValue(State(BeginValue, stack), u);
    after, rest := ParseSpacesAfter(stack, w);
  }

  lemma {:induction false} ParseArray(stack: seq<Context>, t: string) returns (v: Value, rest: string)
    requires Accepts(State(BeginValueOrEmpty, stack + [InArray]), t)
    ensures v.Arr? && Ok(v) && ['['] + t == Text(v) + rest && |rest| < |t| && Accepts(State(EndValue, stack), rest)
    decreases |t|, 3
  {
    var s := State(BeginValueOrEmpty, stack + [InArray]);
    var space, u := ParseSpacesBefore(s, t);
    var items: seq<Item>;
    if u[0] == ']' {
      items, rest := [], u[1..];
      Popped(stack, InArray);
      Closed(stack, InArray, rest);
    } else {
      assert Accepts(State(BeginValue, stack + [InArray]), u);
      items, rest := ParseItems(stack, u);
    }
    v := Arr(space, items);
    Bracket('[', space, ItemsText(items), ']', rest);
  }

  lemma Bracket(open: char, space: string, body: string, close: char, rest: string)
    ensures ([open] + (space + (body + [close]))) + rest == [open] + (space + (body + ([close] + rest)))
  {
    Assoc([open], space + (body + [close]), rest);
    Assoc(space, body + [close], rest);
    Assoc(body, [close], rest);
  }

  lemma {:induction false} ParseItems(stack: seq<Context>, t: string) returns (items: seq<Item>, rest: string)
    requires Accepts(State(BeginValue, stack + [InArray]), t)
    ensures items != [] && forall i | 0 <= i < |items| :: SpacedItem(items[i]) && Ok(items[i].value)
    ensures t == ItemsText(items) + ([']'] + rest) && |rest| < |t| && Accepts(State(EndValue, stack), rest)
    decreases |t|, 2
  {
    var before, v, after, u := ParseSpaced(stack + [InArray], t);
    var i := Item(before, v, after);
    More(State(EndValue, stack + [InArray]), u);
    Popped(stack, InArray);
    if u[0] == ',' {
      items, rest := ParseItems(stack, u[1..]);
      ItemsMore(i, items, [']'] + rest);
      items := [i] + items;
    } else {
      rest := u[1..];
      Closed(stack, InArray, rest);
      items := [i];
      ItemsOne(i, u);
    }
  }

  lemma ItemsOne(i: Item, t: string)
    ensures ItemsText([i]) + t == i.before + (Text(i.value) + (i.after + t))
  {
    Assoc(i.before, Text(i.value) + (i.after + ""), t);
    Assoc(Text(i.value), i.after + "", t);
    assert i.after + "" == i.after;
  }

  lemma ItemsMore(i: Item, items: seq<Item>, t: string)
    requires items != []
    ensures ItemsText([i] + items) + t == i.before + (Text(i.value) + (i.after + ([','] + (ItemsText(items) + t))))
  {
    var more := [','] + ItemsText(items);
    assert ([i] + items)[1..] == items;
    Assoc(i.before, Text(i.value) + (i.after + more), t);
    Assoc(Text(i.value), i.after + more, t);
    Assoc(i.after, more, t);
    Assoc([','], ItemsText(items), t);
  }

  lemma {:induction false} ParseObject(stack: seq<Context>, t: string) returns (v: Value, rest: string)
    requires Accepts(State(BeginKeyOrEmpty, stack + [InKey]), t)
    ensures v.Obj? && Ok(v) && ['{'] + t == Text(v) + rest && |rest| < |t| && Accepts(State(EndValue, stack), rest)
    decreases |t|, 3
  {
    var s := State(BeginKeyOrEmpty, stack + [InKey]);
    var space, u := ParseSpacesBefore(s, t);
    var members: seq<Member>;
    if u[0] == '}' {
      members, rest := [], u[1..];
      Closed(stack, InKey, rest);
    } else {
      assert Accepts(State(BeginKey, stack + [InKey]), u);
      members, rest := ParseMembers(stack, u);
    }
    v := Obj(space, members);
    Bracket('{', space, MembersText(members), '}', rest);
  }

  /** A key and its colon. */
  lemma ParseKey(stack: seq<Context>, t: string)
    returns (before: string, key: seq<StrChar>, colon: string, rest: string)
    requires Accepts(State(BeginKey, stack + [InKey]), t)
    ensures AllSpace(before) && StrOk(key) && AllSpace(colon)
    ensures t == before + (StringText(key) + (colon + ([':'] + rest)))
    ensures |rest| < |t| && Accepts(State(BeginValue, stack + [InValue]), rest)
  {
    var u, w, x;
    before, u := ParseSpacesBefore(State(BeginKey, stack + [InKey]), t);
    More(State(BeginKey, stack + [InKey]), u);
    key, w := ParseString(stack + [InKey], u);
    colon, x := ParseSpacesAfter(stack + [InKey], w);
    Swapped(stack, InKey, InValue);
    More(State(EndValue, stack + [InKey]), x);
    rest := x[1..];
  }

  lemma {:induction false} ParseMembers(stack: seq<Context>, t: string) returns (members: seq<Member>, rest: string)
    requires Accepts(State(BeginKey, stack + [InKey]), t)
    ensures members != [] && forall i | 0 <= i < |members| :: SpacedMember(members[i]) && Ok(members[i].value)
    ensures t == MembersText(members) + (['}'] + rest) && |rest| < |t| && Accepts(State(EndValue, stack), rest)
    decreases |t|, 2
  {
    var before, key, colon, w := ParseKey(stack, t);
    var between, v, after, u := ParseSpaced(stack + [InValue], w);
    var m := Member(before, key, colon, between, v, after);
    Swapped(stack, InValue, InKey);
    More(State(EndValue, stack + [InValue]), u);
    if u[0] == ',' {
      members, rest := ParseMembers(stack, u[1..]);
      MembersMore(m, members, ['}'] + rest);
      members := [m] + members;
    } else {
      rest := u[1..];
      Closed(stack, InValue, rest);
      members := [m];
      MembersOne(m, u);
    }
  }

  /** The text of a member that more follows, with what follows it all. */
  lemma MemberTail(m: Member, more: string, t: string)
    ensures (m.before + (StringText(m.key)
              + (m.colon + ([':'] + (m.between + (Text(m.value) + (m.after + more))))))) + t
         == m.before + (StringText(m.key)
              + (m.colon + ([':'] + (m.between + (Text(m.value) + (m.after + (more + t)))))))
  {
    var a6 := m.after + more;
    var a5 := Text(m.value) + a6;
    var a4 := m.between + a5;
    var a3 := [':'] + a4;
    var a2 := m.colon + a3;
    Assoc(m.before, StringText(m.key) + a2, t);
    Assoc(StringText(m.key), a2, t);
    Assoc(m.colon, a3, t);
    Assoc([':'], a4, t);
    Assoc(m.between, a5, t);
    Assoc(Text(m.value), a6, t);
    Assoc(m.after, more, t);
  }

  lemma MembersOne(m: Member, t: string)
    ensures MembersText([m]) + t
         == m.before + (StringText(m.key) + (m.colon + ([':'] + (m.between + (Text(m.value) + (m.after + t))))))
  {
    MemberTail(m, "", t);
    assert "" + t == t;
  }

  lemma MembersMore(m: Member, members: seq<Member>, t: string)
    requires members != []
    ensures MembersText([m] + members) + t
         == m.before + (StringText(m.key) + (m.colon + ([':'] + (m.between + (Text(m.value)
            + (m.after + ([','] + (MembersText(members) + t))))))))
  {
    assert ([m] + members)[1..] == members;
    MemberTail(m, [','] + MembersText(members), t);
    Assoc([','], MembersText(members), t);
  }

  /** Only the text of a value, with white space around it, is valid; and it is by EveryValueIsValid. */
  lemma ValidIsText(t: string) returns (before: string, v: Value, after: string)
    requires Valid(t)
    ensures AllSpace(before) && Ok(v) && AllSpace(after) && t == before + (Text(v) + after)
  {
    var rest;
    before, v, after, rest := ParseSpaced([], t);
    if rest != "" {
      NothingAfterInvalid(Step(State(EndValue, []), rest[0]), rest[1..]);
    }
    assert after + "" == after;
  }

  /** The validator accepts exactly JSON. */
  lemma ValidIffText(t: string)
    ensures Valid(t) <==> exists before: string, v: Value, after: string ::
              AllSpace(before) && Ok(v) && AllSpace(after) && t == before + (Text(v) + after)
  {
    if Valid(t) {
      var before, v, after := ValidIsText(t);
    }
    forall before: string, v: Value, after: string
      | AllSpace(before) && Ok(v) && AllSpace(after) && t == before + (Text(v) + after)
      ensures Valid(t)
    {
      EveryValueIsValid(before, v, after);
    }
  }
}

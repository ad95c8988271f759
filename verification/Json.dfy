/** The fragment of JSON text the program writes and reads itself: one flat object whose values are
    strings and whole numbers, with white space or without. Strings stand for byte sequences, one
    character each. The `Read` functions are an independent reader. */
module Json {
  import opened Wrappers
  import opened Characters

  datatype Value = Text(text: string) | Number(digits: string) | Null

  type Fields = seq<(string, Value)>

  // ---------------------------------------------------------------- writing

  function HexDigit(n: nat): char
    requires n < 16
  {
    "0123456789abcdef"[n]
  }

  function Unicode(c: char): string {
    var n := c as int;
    ['\\', 'u', HexDigit(n / 4096 % 16), HexDigit(n / 256 % 16), HexDigit(n / 16 % 16), HexDigit(n % 16)]
  }

  /** Go's encoder also hides the characters that matter to HTML. */
  function Escape(c: char): string {
    if c == '"' then "\\\""
    else if c == '\\' then "\\\\"
    else if c == '\n' then "\\n"
    else if c == '\r' then "\\r"
    else if c == '\t' then "\\t"
    else if c < ' ' || c == '<' || c == '>' || c == '&' then Unicode(c)
    else [c]
  }

  function EscapeAll(s: string): string {
    if s == "" then "" else Escape(s[0]) + EscapeAll(s[1..])
  }

  function Quote(s: string): string { "\"" + EscapeAll(s) + "\"" }

  function Decimal(n: nat): (r: string)
    ensures |r| >= 1 && (n < 10 <==> |r| == 1)
  {
    if n < 10 then [HexDigit(n)] else Decimal(n / 10) + [HexDigit(n % 10)]
  }

  function WriteValue(v: Value): string {
    match v case Text(text) => Quote(text) case Number(digits) => digits case Null => "null"
  }

  function Member(m: (string, Value)): string { Quote(m.0) + ":" + WriteValue(m.1) }

  /** The members and the closing brace. */
  function WriteMembers(fields: Fields): string
    requires fields != []
  {
    if |fields| == 1 then Member(fields[0]) + "}"
    else Member(fields[0]) + ([','] + WriteMembers(fields[1..]))
  }

  function WriteObject(fields: Fields): string
    requires fields != []
  {
    "{" + WriteMembers(fields)
  }

  /** The white space before each member, after each colon and before the closing brace. */
  datatype Layout = Layout(lead: string, gap: string, tail: string)

  const COMPACT := Layout("", "", "")
  const INDENTED := Layout("\n  ", " ", "\n")

  function LaidMembers(fields: Fields, l: Layout): string
    requires fields != []
  {
    l.lead + (Quote(fields[0].0) + LaidValue(fields[0].1, l,
      if |fields| == 1 then l.tail + "}" else [','] + LaidMembers(fields[1..], l)))
  }

  /** What follows a member's name. */
  function LaidValue(v: Value, l: Layout, rest: string): string { [':'] + (l.gap + (WriteValue(v) + rest)) }

  function LaidObject(fields: Fields, l: Layout): string
    requires fields != []
  {
    "{" + LaidMembers(fields, l)
  }

  /** Go's indented form: a member a line, two spaces deep. */
  function WriteIndented(fields: Fields): string
    requires fields != []
  {
    LaidObject(fields, INDENTED)
  }

  // ---------------------------------------------------------------- reading

  predicate IsSpace(c: char) { c == ' ' || c == '\t' || c == '\n' || c == '\r' }

  function Skip(s: string): (r: string)
    ensures |r| <= |s| && (r == "" || !IsSpace(r[0]))
  {
    if s != "" && IsSpace(s[0]) then Skip(s[1..]) else s
  }

  function HexValue(c: char): Option<nat> {
    if '0' <= c <= '9' then Some(c as int - '0' as int)
    else if 'a' <= c <= 'f' then Some(c as int - 'a' as int + 10)
    else if 'A' <= c <= 'F' then Some(c as int - 'A' as int + 10)
    else None
  }

  /** One character of a string body, and how much text it took. */
  function ReadChar(s: string): (r: Option<(char, nat)>)
    ensures r.Some? ==> 0 < r.value.1 <= |s|
  {
    if s == "" || s[0] < ' ' || s[0] == '"' then None
    else if s[0] != '\\' then Some((s[0], 1))
    else if |s| < 2 then None
    else match s[1]
      case '"' => Some(('"', 2))
      case '\\' => Some(('\\', 2))
      case '/' => Some(('/', 2))
      case 'b' => Some((8 as char, 2))
      case 'f' => Some((12 as char, 2))
      case 'n' => Some(('\n', 2))
      case 'r' => Some(('\r', 2))
      case 't' => Some(('\t', 2))
      case 'u' =>
        if |s| < 6 then None
        else (
          match (HexValue(s[2]), HexValue(s[3]), HexValue(s[4]), HexValue(s[5]))
          case (Some(a), Some(b), Some(c), Some(d)) =>
            var n := a * 4096 + b * 256 + c * 16 + d;
            if n < 0xD800 then Some((n as char, 6)) else None
          case _ => None
        )
      case _ => None
  }

  /** The rest of a string body up to its closing quote, and the text after it. */
  function ReadBody(s: string): (r: Option<(string, string)>)
    ensures r.Some? ==> |r.value.1| < |s|
    decreases |s|
  {
    if s == "" then None
    else if s[0] == '"' then Some(("", s[1..]))
    else
      match ReadChar(s)
      case None => None
      case Some((c, n)) =>
        match ReadBody(s[n..])
        case None => None
        case Some((text, rest)) => Some(([c] + text, rest))
  }

  function ReadString(s: string): (r: Option<(string, string)>)
    ensures r.Some? ==> |r.value.1| < |s|
  {
    if s != "" && s[0] == '"' then ReadBody(s[1..]) else None
  }

  function DigitRun(s: string): (n: nat)
    ensures n <= |s|
  {
    if s != "" && IsDigit(s[0]) then 1 + DigitRun(s[1..]) else 0
  }

  function ReadValue(s: string): (r: Option<(Value, string)>)
    ensures r.Some? ==> |r.value.1| < |s|
  {
    if s == "" then None
    else if s[0] == '"' then
      match ReadString(s)
      case None => None
      case Some((text, rest)) => Some((Text(text), rest))
    else if DigitRun(s) > 0 then Some((Number(s[..DigitRun(s)]), s[DigitRun(s)..]))
    else if "null" <= s then Some((Null, s[4..]))
    else None
  }

  /** The members of an object, after its opening brace. The text must end with the object. */
  function ReadMembers(s: string): Option<Fields>
    decreases |s|
  {
    match ReadString(Skip(s))
    case None => None
    case Some((name, s1)) =>
      if Skip(s1) == "" || Skip(s1)[0] != ':' then None
      else
        match ReadValue(Skip(Skip(s1)[1..]))
        case None => None
        case Some((value, s2)) =>
          var s3 := Skip(s2);
          if s3 == "" then None
          else if s3[0] == '}' then if Skip(s3[1..]) == "" then Some([(name, value)]) else None
          else if s3[0] != ',' then None
          else
            match ReadMembers(s3[1..])
            case None => None
            case Some(more) => Some([(name, value)] + more)
  }

  function ReadObject(s: string): Option<Fields> {
    var s1 := Skip(s);
    if s1 == "" || s1[0] != '{' then None
    else
      var s2 := Skip(s1[1..]);
      if s2 != "" && s2[0] == '}' then if Skip(s2[1..]) == "" then Some([]) else None
      else ReadMembers(s1[1..])
  }

  /** The last member called `name`, as Go's decoder keeps it. */
  function Field(fields: Fields, name: string): Option<Value> {
    if fields == [] then None
    else if fields[|fields| - 1].0 == name then Some(fields[|fields| - 1].1)
    else Field(fields[..|fields| - 1], name)
  }

  /** Of several members with one name the last counts; other names make no difference. */
  lemma FieldIsLast(fields: Fields, m: (string, Value), name: string)
    ensures Field(fields + [m], name) == if m.0 == name then Some(m.1) else Field(fields, name)
  {
    assert (fields + [m])[..|fields|] == fields;
  }

  // ---------------------------------------------------------------- the two are inverse

  lemma HexRoundTrip(n: nat)
    requires n < 16
    ensures HexValue(HexDigit(n)) == Some(n)
  {
  }

  lemma ReadsHex(s: string, n: nat)
    requires |s| >= 6 && n < 256 && s[0] == '\\' && s[1] == 'u' && s[2] == s[3] == '0'
    requires HexValue(s[4]) == Some(n / 16) && HexValue(s[5]) == Some(n % 16)
    ensures ReadChar(s) == Some((n as char, 6))
  {
    assert n == n / 16 * 16 + n % 16;
  }

  lemma ReadsUnicode(c: char, rest: string)
    requires c as int < 256
    ensures ReadChar(Unicode(c) + rest) == Some((c, 6))
  {
    var n := c as int;
    HexRoundTrip(n / 16);
    HexRoundTrip(n % 16);
    assert n / 4096 % 16 == 0 && n / 256 % 16 == 0 && n / 16 % 16 == n / 16;
    ReadsHex(Unicode(c) + rest, n);
  }

  lemma ReadsEscaped(c: char, rest: string)
    requires c as int < 256
    ensures ReadChar(Escape(c) + rest) == Some((c, |Escape(c)|))
    ensures Escape(c)[0] != '"'
  {
    if Escape(c) == Unicode(c) {
      ReadsUnicode(c, rest);
    } else if |Escape(c)| == 2 {
      var s := Escape(c) + rest;
      assert s[0] == '\\' && s[1] == Escape(c)[1];
    } else {
      assert (Escape(c) + rest)[0] == c;
    }
  }

  predicate Bytes(s: string) {
    forall i | 0 <= i < |s| :: s[i] as int < 256
  }

  lemma {:induction false} BodyRoundTrip(s: string, rest: string)
    requires Bytes(s)
    ensures ReadBody(EscapeAll(s) + "\"" + rest) == Some((s, rest))
  {
    var text := EscapeAll(s) + "\"" + rest;
    if s == "" {
      assert text[1..] == rest;
    } else {
      var tail := EscapeAll(s[1..]) + "\"" + rest;
      assert text == Escape(s[0]) + tail;
      ReadsEscaped(s[0], tail);
      assert text[|Escape(s[0])|..] == tail;
      BodyRoundTrip(s[1..], rest);
      assert [s[0]] + s[1..] == s;
    }
  }

  lemma QuoteOpens(body: string, rest: string)
    ensures ("\"" + body + "\"" + rest)[0] == '"' && ("\"" + body + "\"" + rest)[1..] == body + "\"" + rest
  {
  }

  /** Any string, whatever it holds, is read back from its quoted form. */
  lemma StringRoundTrip(s: string, rest: string)
    requires Bytes(s)
    ensures ReadString(Quote(s) + rest) == Some((s, rest))
  {
    BodyRoundTrip(s, rest);
    QuoteOpens(EscapeAll(s), rest);
  }

  lemma {:induction false} DecimalDigits(n: nat)
    ensures Decimal(n) != ""
    ensures forall i | 0 <= i < |Decimal(n)| :: IsDigit(Decimal(n)[i])
  {
    if n >= 10 {
      DecimalDigits(n / 10);
    }
  }

  lemma {:induction false} DigitRunStops(s: string, rest: string)
    requires forall i | 0 <= i < |s| :: IsDigit(s[i])
    requires rest == "" || !IsDigit(rest[0])
    ensures DigitRun(s + rest) == |s|
  {
    if s == "" {
      assert s + rest == rest;
    } else {
      assert (s + rest)[1..] == s[1..] + rest;
      DigitRunStops(s[1..], rest);
    }
  }

  predicate IsNumber(digits: string) {
    digits != "" && forall i | 0 <= i < |digits| :: IsDigit(digits[i])
  }

  predicate WritableValue(v: Value) {
    match v case Text(text) => Bytes(text) case Number(digits) => IsNumber(digits) case Null => true
  }

  predicate Writable(fields: Fields) {
    forall i | 0 <= i < |fields| :: Bytes(fields[i].0) && WritableValue(fields[i].1)
  }

  lemma ValueRoundTrip(v: Value, rest: string)
    requires WritableValue(v)
    requires rest != "" && !IsDigit(rest[0])
    ensures ReadValue(WriteValue(v) + rest) == Some((v, rest))
  {
    match v
    case Text(text) => StringRoundTrip(text, rest);
    case Number(digits) =>
      DigitRunStops(digits, rest);
      assert (digits + rest)[..|digits|] == digits;
      assert (digits + rest)[|digits|..] == rest;
    case Null =>
      assert ("null" + rest)[..4] == "null";
      assert ("null" + rest)[4..] == rest;
  }

  predicate Blank(s: string) { forall i | 0 <= i < |s| :: IsSpace(s[i]) }

  predicate White(l: Layout) { Blank(l.lead) && Blank(l.gap) && Blank(l.tail) }

  lemma {:induction false} SkipBlank(w: string, s: string)
    requires Blank(w) && s != "" && !IsSpace(s[0])
    ensures Skip(w + s) == s
  {
    if w == "" {
      assert w + s == s;
    } else {
      assert (w + s)[1..] == w[1..] + s;
      SkipBlank(w[1..], s);
    }
  }

  lemma ValueIsSolid(v: Value, rest: string)
    requires WritableValue(v)
    ensures WriteValue(v) + rest != "" && !IsSpace((WriteValue(v) + rest)[0])
  {
  }

  /** Reading past a name and its value. */
  lemma MemberIsRead(name: string, v: Value, l: Layout, rest: string)
    requires White(l) && Bytes(name) && WritableValue(v) && rest != "" && !IsDigit(rest[0])
    ensures var text, after := l.lead + (Quote(name) + LaidValue(v, l, rest)), LaidValue(v, l, rest);
      && ReadString(Skip(text)) == Some((name, after))
      && Skip(after) == after && after[0] == ':'
      && ReadValue(Skip(after[1..])) == Some((v, rest))
  {
    var after := LaidValue(v, l, rest);
    StringRoundTrip(name, after);
    assert (Quote(name) + after)[0] == '"';
    SkipBlank(l.lead, Quote(name) + after);
    assert after[1..] == l.gap + (WriteValue(v) + rest);
    ValueIsSolid(v, rest);
    SkipBlank(l.gap, WriteValue(v) + rest);
    ValueRoundTrip(v, rest);
  }

  lemma LastMemberRoundTrip(m: (string, Value), l: Layout)
    requires White(l) && Bytes(m.0) && WritableValue(m.1)
    ensures ReadMembers(l.lead + (Quote(m.0) + LaidValue(m.1, l, l.tail + "}"))) == Some([m])
  {
    var rest := l.tail + "}";
    assert rest[0] == '}' || IsSpace(rest[0]);
    MemberIsRead(m.0, m.1, l, rest);
    SkipBlank(l.tail, "}");
    assert "}"[1..] == "";
  }

  lemma NextMemberRoundTrip(m: (string, Value), l: Layout, more: string, others: Fields)
    requires White(l) && Bytes(m.0) && WritableValue(m.1) && ReadMembers(more) == Some(others)
    ensures ReadMembers(l.lead + (Quote(m.0) + LaidValue(m.1, l, [','] + more))) == Some([m] + others)
  {
    var rest := [','] + more;
    MemberIsRead(m.0, m.1, l, rest);
    assert rest[1..] == more && Skip(rest) == rest;
  }

  /** The text of the first member, and of the others if there are any. */
  lemma LaidFirst(fields: Fields, l: Layout)
    requires fields != []
    ensures var rest := if |fields| == 1 then l.tail + "}" else [','] + LaidMembers(fields[1..], l);
      LaidMembers(fields, l) == l.lead + (Quote(fields[0].0) + LaidValue(fields[0].1, l, rest))
  {
  }

  lemma {:induction false} MembersRoundTrip(fields: Fields, l: Layout)
    requires fields != [] && Writable(fields) && White(l)
    ensures ReadMembers(LaidMembers(fields, l)) == Some(fields)
  {
    var m, others := fields[0], fields[1..];
    assert fields == [m] + others;
    LaidFirst(fields, l);
    if |fields| == 1 {
      LastMemberRoundTrip(m, l);
      assert fields == [m];
    } else {
      MembersRoundTrip(others, l);
      NextMemberRoundTrip(m, l, LaidMembers(others, l), others);
    }
  }

  /** A written object is read back member by member, whatever its strings hold and however it is
      laid out. */
  lemma LaidRoundTrip(fields: Fields, l: Layout)
    requires fields != [] && Writable(fields) && White(l)
    ensures ReadObject(LaidObject(fields, l)) == Some(fields)
  {
    var text := LaidObject(fields, l);
    MembersRoundTrip(fields, l);
    assert text[0] == '{' && text[1..] == LaidMembers(fields, l);
    NameComesFirst(fields, l);
  }

  lemma NameComesFirst(fields: Fields, l: Layout)
    requires fields != [] && White(l)
    ensures Skip(LaidMembers(fields, l)) != "" && Skip(LaidMembers(fields, l))[0] == '"'
  {
    var rest := if |fields| == 1 then l.tail + "}" else [','] + LaidMembers(fields[1..], l);
    var text := Quote(fields[0].0) + LaidValue(fields[0].1, l, rest);
    assert text[0] == '"';
    SkipBlank(l.lead, text);
  }

  lemma WithoutSpace(name: string, value: string, rest: string)
    ensures "" + (name + ([':'] + ("" + (value + rest)))) == (name + ":" + value) + rest
  {
  }

  lemma CompactMember(m: (string, Value), rest: string)
    ensures COMPACT.lead + (Quote(m.0) + LaidValue(m.1, COMPACT, rest)) == Member(m) + rest
  {
    WithoutSpace(Quote(m.0), WriteValue(m.1), rest);
  }

  lemma {:induction false} CompactMembers(fields: Fields)
    requires fields != []
    ensures LaidMembers(fields, COMPACT) == WriteMembers(fields)
  {
    if |fields| == 1 {
      CompactMember(fields[0], "}");
      assert COMPACT.tail + "}" == "}";
    } else {
      CompactMembers(fields[1..]);
      CompactMember(fields[0], [','] + WriteMembers(fields[1..]));
    }
  }

  lemma ObjectRoundTrip(fields: Fields)
    requires fields != [] && Writable(fields)
    ensures ReadObject(WriteObject(fields)) == Some(fields)
  {
    CompactMembers(fields);
    LaidRoundTrip(fields, COMPACT);
  }

  lemma IndentedRoundTrip(fields: Fields)
    requires fields != [] && Writable(fields)
    ensures ReadObject(WriteIndented(fields)) == Some(fields)
  {
    LaidRoundTrip(fields, INDENTED);
  }

  lemma {:induction false} AppendedLength(fields: Fields, m: (string, Value))
    requires fields != []
    ensures |WriteMembers(fields + [m])| == |WriteMembers(fields)| + 1 + |Member(m)|
  {
    assert (fields + [m])[1..] == fields[1..] + [m];
    if |fields| > 1 {
      AppendedLength(fields[1..], m);
    } else {
      assert fields[1..] + [m] == [m];
    }
  }

  /** Different numbers are written differently. */
  lemma {:induction false} DecimalInjective(m: nat, n: nat)
    requires Decimal(m) == Decimal(n)
    ensures m == n
  {
    var d := Decimal(m);
    assert d[|d| - 1] == HexDigit(m % 10) == HexDigit(n % 10);
    HexRoundTrip(m % 10);
    HexRoundTrip(n % 10);
    if m >= 10 && n >= 10 {
      assert d[..|d| - 1] == Decimal(m / 10) == Decimal(n / 10);
      DecimalInjective(m / 10, n / 10);
    }
  }
}

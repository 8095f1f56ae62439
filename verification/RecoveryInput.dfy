/** Reading back the input that the due-work planner prints: a flat JSON object and a hexadecimal id
    (crates/runtime/src/recovery/mod.rs). */
module RecoveryInput {
  import opened Prelude
  import opened Text

  // ---------------------------------------------------------------- hexadecimal ids

  type Id = s: seq<Byte> | |s| == 16 witness seq(16, _ => 0)

  function HexDigit(c: char): Option<nat> {
    if '0' <= c <= '9' then Some(c as int - '0' as int)
    else if 'a' <= c <= 'f' then Some(c as int - 'a' as int + 10)
    else if 'A' <= c <= 'F' then Some(c as int - 'A' as int + 10)
    else None
  }

  /** Rust's `u8::from_str_radix` on two characters: a leading plus sign is accepted. */
  function ByteFromText(a: char, b: char): (r: Option<Byte>)
  {
    match (HexDigit(a), HexDigit(b))
    case (Some(x), Some(y)) => if x < 16 && y < 16 then Some(16 * x + y) else None
    case (None, Some(y)) => if a == '+' && y < 16 then Some(y) else None
    case _ => None
  }

  ghost predicate Decodes(text: string, bytes: seq<Byte>) {
    && |text| == 2 * |bytes|
    && forall i :: 0 <= i < |bytes| ==> ByteFromText(text[2 * i], text[2 * i + 1]) == Some(bytes[i])
  }

  method DecodeHexId(text: string) returns (r: Option<Id>)
    ensures r.Some? ==> Decodes(text, r.value)
    ensures r.None? ==> !exists bytes: Id :: Decodes(text, bytes)
  {
    if |text| != 32 {
      return None;
    }
    var bytes := new Byte[16](_ => 0);
    for index := 0 to 16
      invariant forall i :: 0 <= i < index ==> ByteFromText(text[2 * i], text[2 * i + 1]) == Some(bytes[i])
    {
      var offset := 2 * index;
      var byte := ByteFromText(text[offset], text[offset + 1]);
      if byte.None? {
        return None;
      }
      bytes[index] := byte.value;
    }
    r := Some(bytes[..]);
  }

  lemma {:induction false} HexAt(bytes: seq<Byte>, i: nat)
    requires i < |bytes|
    ensures Hex(bytes)[2 * i] == HexChar(bytes[i] / 16) && Hex(bytes)[2 * i + 1] == HexChar(bytes[i] % 16)
  {
    var n := |bytes| - 1;
    assert Hex(bytes) == Hex(bytes[..n]) + [HexChar(bytes[n] / 16), HexChar(bytes[n] % 16)];
    if i < n {
      HexAt(bytes[..n], i);
    }
  }

  /** A printed id decodes to the id. */
  lemma PrintedIdDecodes(bytes: seq<Byte>)
    ensures Decodes(Hex(bytes), bytes)
  {
    forall i | 0 <= i < |bytes| ensures ByteFromText(Hex(bytes)[2 * i], Hex(bytes)[2 * i + 1]) == Some(bytes[i]) {
      HexAt(bytes, i);
      PrintedByteReads(bytes[i]);
    }
  }

  lemma PrintedByteReads(b: Byte)
    ensures ByteFromText(HexChar(b / 16), HexChar(b % 16)) == Some(b)
  {
  }

  predicate Canonical(text: string) {
    forall i :: 0 <= i < |text| ==> CanonicalDigit(text[i])
  }

  predicate CanonicalDigit(c: char) {
    Digit(c) || 'a' <= c <= 'f'
  }

  lemma PairIsPrint(a: char, b: char, byte: Byte)
    requires ByteFromText(a, b) == Some(byte) && CanonicalDigit(a) && CanonicalDigit(b)
    ensures a == HexChar(byte / 16) && b == HexChar(byte % 16)
  {
  }

  /** Of all texts that decode to an id, only its print consists of lower-case digits. */
  lemma OnlyPrintIsCanonical(text: string, bytes: seq<Byte>)
    requires Decodes(text, bytes)
    ensures text == Hex(bytes) <==> Canonical(text)
  {
    if Canonical(text) {
      forall j | 0 <= j < |text| ensures text[j] == Hex(bytes)[j] {
        var i := j / 2;
        HexAt(bytes, i);
        PairIsPrint(text[2 * i], text[2 * i + 1], bytes[i]);
        assert j == 2 * i || j == 2 * i + 1;
      }
    }
  }

  /** So decoding is not injective: a plus sign can stand for a leading zero. */
  lemma DecodingIsNotInjective(bytes: Id)
    requires bytes[0] < 16
    ensures Decodes(Hex(bytes), bytes) && Decodes("+" + Hex(bytes)[1..], bytes) && Hex(bytes) != "+" + Hex(bytes)[1..]
  {
    PrintedIdDecodes(bytes);
    HexAt(bytes, 0);
    var text := "+" + Hex(bytes)[1..];
    forall i | 0 <= i < 16 ensures ByteFromText(text[2 * i], text[2 * i + 1]) == Some(bytes[i]) {
      HexAt(bytes, i);
      assert i > 0 ==> text[2 * i] == Hex(bytes)[2 * i];
      assert text[2 * i + 1] == Hex(bytes)[2 * i + 1];
    }
  }

  // ---------------------------------------------------------------- second spellings

  /** A leading zero can become a plus sign, and a letter a capital. */
  predicate Respellable(b: Byte) {
    b < 16 || b / 16 >= 10 || b % 16 >= 10
  }

  function Capital(n: nat): char
    requires 10 <= n < 16
  {
    ('A' as int + n - 10) as char
  }

  lemma OtherwiseOnlyPrint(a: char, b: char, byte: Byte)
    requires ByteFromText(a, b) == Some(byte)
    ensures !Respellable(byte) ==> a == HexChar(byte / 16) && b == HexChar(byte % 16)
  {
  }

  /** Another pair of characters for the byte. */
  lemma Respelled(byte: Byte) returns (a: char, b: char)
    requires Respellable(byte)
    ensures ByteFromText(a, b) == Some(byte) && (a != HexChar(byte / 16) || b != HexChar(byte % 16))
  {
    a, b := HexChar(byte / 16), HexChar(byte % 16);
    if byte < 16 {
      a := '+';
    } else if byte / 16 >= 10 {
      a := Capital(byte / 16);
    } else {
      b := Capital(byte % 16);
    }
  }

  /** Exactly the ids with a byte below sixteen or with a letter among their digits have another spelling that decodes
      to them; decoding is injective on the texts of all others. */
  lemma SecondSpellingIff(bytes: seq<Byte>)
    ensures (exists text :: Decodes(text, bytes) && text != Hex(bytes)) <==>
            (exists i :: 0 <= i < |bytes| && Respellable(bytes[i]))
  {
    if i :| 0 <= i < |bytes| && Respellable(bytes[i]) {
      var text := RespelledAt(bytes, i);
    }
    if text :| Decodes(text, bytes) && text != Hex(bytes) {
      var i := RespelledSomewhere(bytes, text);
    }
  }

  lemma RespelledAt(bytes: seq<Byte>, i: nat) returns (text: string)
    requires i < |bytes| && Respellable(bytes[i])
    ensures Decodes(text, bytes) && text != Hex(bytes)
  {
    var printed := Hex(bytes);
    var a, b := Respelled(bytes[i]);
    text := printed[..2 * i] + [a, b] + printed[2 * i + 2..];
    HexAt(bytes, i);
    PrintedIdDecodes(bytes);
    assert text[2 * i] == a && text[2 * i + 1] == b;
    forall j | 0 <= j < |bytes| ensures ByteFromText(text[2 * j], text[2 * j + 1]) == Some(bytes[j]) {
      if j != i {
        assert text[2 * j] == printed[2 * j] && text[2 * j + 1] == printed[2 * j + 1];
      }
    }
  }

  lemma RespelledSomewhere(bytes: seq<Byte>, text: string) returns (i: nat)
    requires Decodes(text, bytes) && text != Hex(bytes)
    ensures i < |bytes| && Respellable(bytes[i])
  {
    var printed := Hex(bytes);
    var j :| 0 <= j < |text| && text[j] != printed[j];
    i := j / 2;
    HexAt(bytes, i);
    OtherwiseOnlyPrint(text[2 * i], text[2 * i + 1], bytes[i]);
    assert j == 2 * i || j == 2 * i + 1;
  }

  // ---------------------------------------------------------------- flat JSON objects

  datatype Value = Text(text: string) | Number(number: nat)

  datatype Member = Member(name: string, value: Value)

  predicate JsonBlank(c: char) {
    c == ' ' || c == '\n' || c == '\r' || c == '\t'
  }

  function Skip(s: string): (rest: string)
    ensures |rest| <= |s|
    ensures rest == [] || !JsonBlank(rest[0])
  {
    if s != [] && JsonBlank(s[0]) then Skip(s[1..]) else s
  }

  /** A character that stands for itself inside a JSON string. */
  predicate Plain(c: char) {
    c != '"' && c != '\\' && c as int >= 0x20
  }

  predicate AllPlain(s: string) {
    forall i :: 0 <= i < |s| ==> Plain(s[i])
  }

  /** The rest of a string after its opening quote. */
  function ReadChars(s: string): (r: Option<(string, string)>)
    ensures r.Some? ==> |r.value.1| < |s|
  {
    if s == [] then None
    else if s[0] == '"' then Some(("", s[1..]))
    else if !Plain(s[0]) then None
    else match ReadChars(s[1..])
      case None => None
      case Some((text, rest)) => Some(([s[0]] + text, rest))
  }

  function DigitPrefix(s: string): (n: nat)
    ensures n <= |s| && forall i :: 0 <= i < n ==> Digit(s[i])
    ensures n < |s| ==> !Digit(s[n])
  {
    if s == [] || !Digit(s[0]) then 0 else 1 + DigitPrefix(s[1..])
  }

  /** An unsigned integer: no leading zero, and no fraction or exponent. */
  function ReadNumber(s: string): (r: Option<(nat, string)>)
    ensures r.Some? ==> |r.value.1| < |s|
  {
    var n := DigitPrefix(s);
    if n == 0 || (n > 1 && s[0] == '0') || (n < |s| && (s[n] == '.' || s[n] == 'e' || s[n] == 'E')) then None
    else Some((DigitsValue(s[..n]), s[n..]))
  }

  function ReadValue(s: string): (r: Option<(Value, string)>)
    ensures r.Some? ==> |r.value.1| < |s|
  {
    if s == [] then None
    else if s[0] == '"' then
      match ReadChars(s[1..]) case None => None case Some((text, rest)) => Some((Text(text), rest))
    else
      match ReadNumber(s) case None => None case Some((n, rest)) => Some((Number(n), rest))
  }

  function ReadMember(s: string): (r: Option<(Member, string)>)
    ensures r.Some? ==> |r.value.1| < |s|
  {
    if s == [] || s[0] != '"' then None
    else match ReadChars(s[1..])
      case None => None
      case Some((name, afterName)) =>
        var colon := Skip(afterName);
        if colon == [] || colon[0] != ':' then None
        else match ReadValue(Skip(colon[1..]))
          case None => None
          case Some((value, rest)) => Some((Member(name, value), rest))
  }

  /** Members separated by commas, up to the closing brace and the end of the text. */
  function ReadMembers(s: string): Option<seq<Member>>
    decreases |s|
  {
    match ReadMember(Skip(s))
    case None => None
    case Some((member, afterMember)) =>
      var rest := Skip(afterMember);
      if rest == [] then None
      else if rest[0] == '}' then if Skip(rest[1..]) == [] then Some([member]) else None
      else if rest[0] != ',' then None
      else match ReadMembers(rest[1..])
        case None => None
        case Some(members) => Some([member] + members)
  }

  function ReadObject(s: string): Option<seq<Member>> {
    var open := Skip(s);
    if open == [] || open[0] != '{' then None
    else if Skip(open[1..]) == "}" then Some([])
    else ReadMembers(open[1..])
  }

  // ---------------------------------------------------------------- the recovery task's input

  datatype DueWorkKind = ToolRetry | AgentRetry

  const U64: nat := 0x1_0000_0000_0000_0000
  const U32: nat := 0x1_0000_0000

  datatype RecoveryTaskInput = RecoveryTaskInput(kind: DueWorkKind, executionId: string, expectedRevision: nat)

  function KindText(kind: DueWorkKind): string {
    match kind case ToolRetry => "tool-retry" case AgentRetry => "agent-retry"
  }

  /** The value of a field that occurs exactly once. */
  function Field(members: seq<Member>, name: string): Option<Value> {
    if members == [] then None
    else if members[0].name == name then
      if Occurs(members[1..], name) then None else Some(members[0].value)
    else Field(members[1..], name)
  }

  predicate Occurs(members: seq<Member>, name: string) {
    exists i :: 0 <= i < |members| && members[i].name == name
  }

  /** Unknown fields are ignored; a missing, repeated or ill-typed one is an error. */
  function ReadInput(s: string): Option<RecoveryTaskInput> {
    match ReadObject(s) case None => None case Some(members) => InputOf(members)
  }

  function InputOf(members: seq<Member>): Option<RecoveryTaskInput> {
    match (Field(members, "due_work_kind"), Field(members, "execution_id"), Field(members, "expected_revision"))
    case (Some(Text(kind)), Some(Text(id)), Some(Number(revision))) =>
      if revision >= U64 then None
      else if kind == "tool-retry" then Some(RecoveryTaskInput(ToolRetry, id, revision))
      else if kind == "agent-retry" then Some(RecoveryTaskInput(AgentRetry, id, revision))
      else None
    case _ => None
  }

  /** The text the planner writes. */
  function PrintInput(kind: DueWorkKind, executionId: string, revision: nat): string {
    "{" + (PrintMember("due_work_kind", Quoted(KindText(kind)))
           + ("," + (PrintMember("execution_id", Quoted(executionId))
                     + ("," + (PrintMember("expected_revision", Decimal(revision)) + "}")))))
  }

  function PrintMember(name: string, printed: string): string {
    Quoted(name) + ":" + printed
  }

  function Quoted(s: string): string {
    "\"" + s + "\""
  }

  lemma {:induction false} CharsReadBack(text: string, rest: string)
    requires AllPlain(text)
    ensures ReadChars(text + "\"" + rest) == Some((text, rest))
  {
    var s := text + "\"" + rest;
    if text == [] {
      assert s == "\"" + rest;
    } else {
      CharsReadBack(text[1..], rest);
      assert s[1..] == text[1..] + "\"" + rest;
      assert [text[0]] + text[1..] == text;
    }
  }

  lemma {:induction false} DigitsEnd(digits: string, rest: string)
    requires forall i :: 0 <= i < |digits| ==> Digit(digits[i])
    requires rest == [] || !Digit(rest[0])
    ensures DigitPrefix(digits + rest) == |digits|
  {
    if digits == [] {
      assert digits + rest == rest;
    } else {
      assert (digits + rest)[1..] == digits[1..] + rest;
      DigitsEnd(digits[1..], rest);
    }
  }

  lemma {:induction false} NoLeadingZero(n: nat)
    ensures n > 0 ==> Decimal(n)[0] != '0'
  {
    if n >= 10 {
      NoLeadingZero(n / 10);
      assert Decimal(n)[0] == Decimal(n / 10)[0];
    }
  }

  lemma NumberReadsBack(n: nat, rest: string)
    requires rest != [] && (rest[0] == ',' || rest[0] == '}')
    ensures ReadValue(Decimal(n) + rest) == Some((Number(n), rest))
  {
    var digits := Decimal(n);
    var s := digits + rest;
    DigitsEnd(digits, rest);
    NoLeadingZero(n);
    DecimalReadsBack(n);
    assert s[..|digits|] == digits && s[|digits|..] == rest;
    assert n == 0 ==> |digits| == 1;
  }

  lemma TextReadsBack(text: string, rest: string)
    requires AllPlain(text)
    ensures ReadValue(Quoted(text) + rest) == Some((Text(text), rest))
  {
    CharsReadBack(text, rest);
    assert (Quoted(text) + rest)[1..] == text + "\"" + rest;
  }

  lemma MemberReadsBack(name: string, printed: string, value: Value, rest: string)
    requires AllPlain(name) && printed != [] && !JsonBlank(printed[0])
    requires ReadValue(printed + rest) == Some((value, rest))
    ensures ReadMember(Quoted(name) + ":" + printed + rest) == Some((Member(name, value), rest))
  {
    var tail := printed + rest;
    assert Quoted(name) + ":" + printed + rest == Quoted(name) + (":" + tail);
    NamedMember(name, tail);
  }

  lemma NamedMember(name: string, tail: string)
    requires AllPlain(name) && tail != [] && !JsonBlank(tail[0])
    ensures ReadMember(Quoted(name) + (":" + tail))
         == match ReadValue(tail) case None => None case Some((value, rest)) => Some((Member(name, value), rest))
  {
    var s, afterName := Quoted(name) + (":" + tail), ":" + tail;
    CharsReadBack(name, afterName);
    assert s[1..] == name + "\"" + afterName;
    assert Skip(afterName) == afterName && afterName[1..] == tail && Skip(tail) == tail;
  }

  lemma MembersReadBack(first: string, member: Member, rest: string)
    requires first != [] && !JsonBlank(first[0])
    requires rest != [] && ReadMember(first + rest) == Some((member, rest))
    ensures rest == "}" ==> ReadMembers(first + rest) == Some([member])
    ensures rest[0] == ',' && ReadMembers(rest[1..]).Some? ==>
              ReadMembers(first + rest) == Some([member] + ReadMembers(rest[1..]).value)
  {
    assert Skip(first + rest) == first + rest;
    if rest == "}" {
      assert rest[1..] == [];
    }
  }

  lemma LastMemberReadsBack(name: string, n: nat)
    requires AllPlain(name)
    ensures ReadMembers(PrintMember(name, Decimal(n)) + "}") == Some([Member(name, Number(n))])
  {
    NumberReadsBack(n, "}");
    MemberReadsBack(name, Decimal(n), Number(n), "}");
    MembersReadBack(PrintMember(name, Decimal(n)), Member(name, Number(n)), "}");
  }

  lemma TextMemberReadsBack(name: string, text: string, tail: string, members: seq<Member>)
    requires AllPlain(name) && AllPlain(text) && ReadMembers(tail) == Some(members)
    ensures ReadMembers(PrintMember(name, Quoted(text)) + ("," + tail)) == Some([Member(name, Text(text))] + members)
  {
    var rest := "," + tail;
    TextReadsBack(text, rest);
    MemberReadsBack(name, Quoted(text), Text(text), rest);
    assert rest[1..] == tail;
    MembersReadBack(PrintMember(name, Quoted(text)), Member(name, Text(text)), rest);
  }

  function PrintedMembers(kind: DueWorkKind, executionId: string, revision: nat): seq<Member> {
    [Member("due_work_kind", Text(KindText(kind)))]
    + ([Member("execution_id", Text(executionId))] + [Member("expected_revision", Number(revision))])
  }

  /** An object of two texts and a number, whatever the names. */
  lemma ThreeMembersReadBack(a: string, x: string, b: string, y: string, c: string, n: nat)
    requires AllPlain(a) && AllPlain(x) && AllPlain(b) && AllPlain(y) && AllPlain(c)
    ensures ReadObject("{" + (PrintMember(a, Quoted(x)) + ("," + (PrintMember(b, Quoted(y)) + ("," + (PrintMember(c, Decimal(n)) + "}"))))))
         == Some([Member(a, Text(x))] + ([Member(b, Text(y))] + [Member(c, Number(n))]))
  {
    var t3 := PrintMember(c, Decimal(n)) + "}";
    LastMemberReadsBack(c, n);
    var t2 := PrintMember(b, Quoted(y)) + ("," + t3);
    TextMemberReadsBack(b, y, t3, [Member(c, Number(n))]);
    var t1 := PrintMember(a, Quoted(x)) + ("," + t2);
    TextMemberReadsBack(a, x, t2, [Member(b, Text(y))] + [Member(c, Number(n))]);
    ObjectReadsBack(t1, [Member(a, Text(x))] + ([Member(b, Text(y))] + [Member(c, Number(n))]));
  }

  lemma MembersOfPrint(kind: DueWorkKind, executionId: string, revision: nat)
    requires AllPlain(executionId)
    ensures ReadObject(PrintInput(kind, executionId, revision)) == Some(PrintedMembers(kind, executionId, revision))
  {
    ThreeMembersReadBack("due_work_kind", KindText(kind), "execution_id", executionId, "expected_revision", revision);
  }

  /** The worker reads exactly what the planner wrote. */
  lemma InputReadsBack(kind: DueWorkKind, executionId: string, revision: nat)
    requires AllPlain(executionId) && revision < U64
    ensures ReadInput(PrintInput(kind, executionId, revision)) == Some(RecoveryTaskInput(kind, executionId, revision))
  {
    MembersOfPrint(kind, executionId, revision);
    FieldsFound(
      Member("due_work_kind", Text(KindText(kind))), Member("execution_id", Text(executionId)), Member("expected_revision", Number(revision)));
  }

  lemma ObjectReadsBack(body: string, members: seq<Member>)
    requires body != [] && body[0] == '"' && ReadMembers(body) == Some(members)
    ensures ReadObject("{" + body) == Some(members)
  {
    var s := "{" + body;
    assert Skip(s) == s && s[1..] == body && Skip(body) == body;
  }

  lemma FieldsFound(a: Member, b: Member, c: Member)
    requires a.name == "due_work_kind" && b.name == "execution_id" && c.name == "expected_revision"
    ensures var members := [a] + ([b] + [c]);
            && Field(members, "due_work_kind") == Some(a.value)
            && Field(members, "execution_id") == Some(b.value)
            && Field(members, "expected_revision") == Some(c.value)
  {
    var none: seq<Member> := [];
    assert a.name[0] != b.name[0] && b.name[1] == 'x' && |b.name| != |c.name| && |a.name| != |c.name|;
    assert [c] + none == [c];
    FieldHit(c, none);
    FieldHit(b, [c]);
    FieldSkip(b, [c], c.name);
    FieldHit(a, [b] + [c]);
    FieldSkip(a, [b] + [c], b.name);
    FieldSkip(a, [b] + [c], c.name);
  }

  lemma FieldHit(m: Member, rest: seq<Member>)
    requires !Occurs(rest, m.name)
    ensures Field([m] + rest, m.name) == Some(m.value)
  {
    assert ([m] + rest)[1..] == rest;
  }

  lemma FieldSkip(m: Member, rest: seq<Member>, name: string)
    requires m.name != name
    ensures Field([m] + rest, name) == Field(rest, name)
  {
    assert ([m] + rest)[1..] == rest;
  }
}

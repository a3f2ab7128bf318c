/**
 The canonical strings that are authenticated: the AEAD associated data of a room message, and
 the inputs of the message and envelope signatures. All are fields joined by '|'.
 */
module SigningInputs {
  // ---- decimal numbers: std::to_string ---------------------------------------------------

  function DigitChar(d: nat): char
    requires d < 10
  {
    '0' + d as char
  }

  predicate IsDigit(c: char) {
    '0' <= c <= '9'
  }

  function DigitValue(c: char): nat
    requires IsDigit(c)
  {
    (c - '0') as nat
  }

  function Decimal(n: nat): (text: string)
    ensures |text| > 0 && forall i | 0 <= i < |text| :: IsDigit(text[i])
  {
    if n < 10 then [DigitChar(n)] else Decimal(n / 10) + [DigitChar(n % 10)]
  }

  function DecimalValue(text: string): nat
    requires forall i | 0 <= i < |text| :: IsDigit(text[i])
  {
    if text == "" then 0
    else DecimalValue(text[..|text| - 1]) * 10 + DigitValue(text[|text| - 1])
  }

  lemma {:induction false} DecimalRoundTrip(n: nat)
    ensures DecimalValue(Decimal(n)) == n
  {
    var text := Decimal(n);
    if n < 10 {
      assert text[..|text| - 1] == "";
    } else {
      DecimalRoundTrip(n / 10);
      assert text[..|text| - 1] == Decimal(n / 10);
    }
  }

  // ---- fields joined by '|' --------------------------------------------------------------

  function JoinBar(fields: seq<string>): string {
    if fields == [] then ""
    else if |fields| == 1 then fields[0]
    else JoinBar(fields[..|fields| - 1]) + "|" + fields[|fields| - 1]
  }

  function Bars(text: string): nat {
    multiset(text)['|']
  }

  ghost predicate Clean(text: string) {
    '|' !in text
  }

  lemma {:induction false} CleanHasNoBars(text: string)
    ensures Clean(text) <==> Bars(text) == 0
  {
  }

  lemma {:induction false} BarsOfJoin(fields: seq<string>)
    requires fields != []
    ensures Bars(JoinBar(fields)) >= |fields| - 1
    ensures Bars(JoinBar(fields)) == |fields| - 1 <==> forall f | f in fields :: Clean(f)
  {
    var n := |fields| - 1;
    CleanHasNoBars(fields[n]);
    if n == 0 {
      assert JoinBar(fields) == fields[0];
    } else {
      BarsOfJoin(fields[..n]);
      assert Bars("|") == 1;
      assert fields == fields[..n] + [fields[n]];
    }
  }

  lemma {:induction false} LastFieldUnique(x: string, a: string, y: string, b: string)
    requires Clean(a) && Clean(b)
    requires x + "|" + a == y + "|" + b
    ensures x == y && a == b
  {
    var l, r := x + "|" + a, y + "|" + b;
    assert l[|x|] == '|' && r[|y|] == '|';
    assert |x| == |y|;
    assert l[..|x|] == x && r[..|y|] == y;
    assert l[|x| + 1..] == a && r[|y| + 1..] == b;
  }

  lemma {:induction false} SameTextSameCleanness(clean: seq<string>, other: seq<string>)
    requires |clean| == |other| > 0 && forall f | f in clean :: Clean(f)
    requires JoinBar(clean) == JoinBar(other)
    ensures forall f | f in other :: Clean(f)
  {
    BarsOfJoin(clean);
    BarsOfJoin(other);
  }

  /**
   A joined string determines its fields as soon as one of the two field lists is free of bars:
   the other list may contain anything.
   */
  lemma {:induction false} JoinUnique(clean: seq<string>, other: seq<string>)
    requires |clean| == |other| && forall f | f in clean :: Clean(f)
    requires JoinBar(clean) == JoinBar(other)
    ensures clean == other
  {
    if |clean| == 1 {
      assert clean == [clean[0]] && other == [other[0]];
    } else if |clean| > 1 {
      var n := |clean| - 1;
      SameTextSameCleanness(clean, other);
      assert Clean(clean[n]) && Clean(other[n]);
      LastFieldUnique(JoinBar(clean[..n]), clean[n], JoinBar(other[..n]), other[n]);
      JoinUnique(clean[..n], other[..n]);
      assert clean == clean[..n] + [clean[n]] && other == other[..n] + [other[n]];
    }
  }

  lemma {:induction false} JoinSingle(f: string)
    ensures JoinBar([f]) == f
  {
  }

  lemma {:induction false} JoinPrefix(fields: seq<string>, n: nat)
    requires 0 < n < |fields|
    ensures JoinBar(fields[..n + 1]) == JoinBar(fields[..n]) + "|" + fields[n]
  {
    assert fields[..n] + [fields[n]] == fields[..n + 1];
  }

  // ---- key ids ---------------------------------------------------------------------------

  predicate IsValidKeyId(keyId: string) {
    |keyId| == 8 && forall i | 0 <= i < 8 :: '0' <= keyId[i] <= '9' || 'a' <= keyId[i] <= 'f'
  }

  // ---- the three canonical strings -------------------------------------------------------

  function MessageAad(room: string, sender: string, epoch: nat, keyId: string, index: nat): string {
    "cli-chat-e2ee/v2|" + room + "|" + sender + "|" + Decimal(epoch) + "|" + keyId + "|" + Decimal(index)
  }

  function MessageSignInput(aad: string, nonceB64: string, ciphertextB64: string): string {
    aad + "|" + nonceB64 + "|" + ciphertextB64
  }

  function EnvelopeSignInput(room: string, sender: string, recipient: string, epoch: nat, keyId: string,
                             nonceB64: string, boxB64: string): string {
    "cli-chat-env/v2|" + room + "|" + sender + "|" + recipient + "|" +
    Decimal(epoch) + "|" + keyId + "|" + nonceB64 + "|" + boxB64
  }

  datatype AadFields = AadFields(room: string, sender: string, epoch: nat, keyId: string, index: nat) {
    function Text(): string {
      MessageAad(room, sender, epoch, keyId, index)
    }

    function Fields(): seq<string> {
      ["cli-chat-e2ee/v2", room, sender, Decimal(epoch), keyId, Decimal(index)]
    }

    lemma {:induction false} TextIsJoined()
      ensures Text() == JoinBar(Fields())
    {
      hide JoinBar, Decimal;
      var f := Fields();
      JoinSingle(f[0]);
      assert f[..1] == [f[0]] && f[0] + "|" == "cli-chat-e2ee/v2|";
      JoinPrefix(f, 1);
      JoinPrefix(f, 2);
      JoinPrefix(f, 3);
      JoinPrefix(f, 4);
      JoinPrefix(f, 5);
      assert f[..6] == f;
    }
  }

  datatype SignedMessage = SignedMessage(aad: AadFields, nonceB64: string, ciphertextB64: string) {
    function Text(): string {
      MessageSignInput(aad.Text(), nonceB64, ciphertextB64)
    }

    function Fields(): seq<string> {
      aad.Fields() + [nonceB64, ciphertextB64]
    }

    ghost predicate AllClean() {
      Clean(aad.room) && Clean(aad.sender) && Clean(nonceB64) && Clean(ciphertextB64)
    }

    lemma {:induction false} TextIsJoined()
      ensures Text() == JoinBar(Fields())
    {
      aad.TextIsJoined();
      assert Fields() == aad.Fields() + [nonceB64] + [ciphertextB64];
    }
  }

  datatype SignedEnvelope = SignedEnvelope(room: string, sender: string, recipient: string, epoch: nat,
                                           keyId: string, nonceB64: string, boxB64: string) {
    function Text(): string {
      EnvelopeSignInput(room, sender, recipient, epoch, keyId, nonceB64, boxB64)
    }

    function Fields(): seq<string> {
      ["cli-chat-env/v2", room, sender, recipient, Decimal(epoch), keyId, nonceB64, boxB64]
    }

    ghost predicate AllClean() {
      Clean(room) && Clean(sender) && Clean(recipient) && Clean(nonceB64) && Clean(boxB64)
    }

    lemma {:induction false} TextIsJoined()
      ensures Text() == JoinBar(Fields())
    {
      hide JoinBar, Decimal;
      var f := Fields();
      JoinSingle(f[0]);
      assert f[..1] == [f[0]] && f[0] + "|" == "cli-chat-env/v2|";
      JoinPrefix(f, 1);
      JoinPrefix(f, 2);
      JoinPrefix(f, 3);
      JoinPrefix(f, 4);
      JoinPrefix(f, 5);
      JoinPrefix(f, 6);
      JoinPrefix(f, 7);
      assert f[..8] == f;
    }
  }

  lemma {:induction false} DecimalInjective(m: nat, n: nat)
    ensures Decimal(m) == Decimal(n) <==> m == n
  {
    DecimalRoundTrip(m);
    DecimalRoundTrip(n);
  }

  /**
   The associated data identifies a message exactly when neither name contains a bar: then no
   other fields whatever give the same text, and otherwise some other fields do.
   */
  lemma {:induction false} AadUnambiguous(a: AadFields)
    requires IsValidKeyId(a.keyId)
    ensures (forall b: AadFields | b.Text() == a.Text() :: b == a) <==> Clean(a.room) && Clean(a.sender)
  {
    if Clean(a.room) && Clean(a.sender) {
      forall b: AadFields | b.Text() == a.Text() ensures b == a {
        CleanAadUnique(a, b);
      }
    } else {
      var b := AadCollision(a);
    }
  }

  lemma {:induction false} CleanAadUnique(a: AadFields, b: AadFields)
    requires IsValidKeyId(a.keyId) && Clean(a.room) && Clean(a.sender)
    requires a.Text() == b.Text()
    ensures a == b
  {
    a.TextIsJoined();
    b.TextIsJoined();
    JoinUnique(a.Fields(), b.Fields());
    var f, g := a.Fields(), b.Fields();
    assert f[1] == g[1] && f[2] == g[2] && f[3] == g[3] && f[4] == g[4] && f[5] == g[5];
    DecimalInjective(a.epoch, b.epoch);
    DecimalInjective(a.index, b.index);
  }

  /** Moving the boundary between room and sender to another bar keeps the text. */
  lemma {:induction false} AadCollision(a: AadFields) returns (b: AadFields)
    requires !Clean(a.room) || !Clean(a.sender)
    ensures b != a && b.Text() == a.Text()
  {
    var r, s := CutElsewhere(a.room, a.sender);
    b := a.(room := r, sender := s);
    SameTail("cli-chat-e2ee/v2|", a.room, a.sender, r, s);
  }

  lemma {:induction false} CleanMessageUnique(a: SignedMessage, b: SignedMessage)
    requires IsValidKeyId(a.aad.keyId) && a.AllClean() && a.Text() == b.Text()
    ensures a == b
  {
    a.TextIsJoined();
    b.TextIsJoined();
    a.aad.TextIsJoined();
    b.aad.TextIsJoined();
    JoinUnique(a.Fields(), b.Fields());
    assert a.Fields()[..6] == a.aad.Fields() && b.Fields()[..6] == b.aad.Fields();
    assert a.Fields()[6] == b.Fields()[6] && a.Fields()[7] == b.Fields()[7];
    CleanAadUnique(a.aad, b.aad);
  }

  /** Two adjacent fields of which one has a bar can be cut at another place. */
  lemma {:induction false} CutElsewhere(x: string, y: string) returns (x': string, y': string)
    requires !Clean(x) || !Clean(y)
    ensures x' + "|" + y' == x + "|" + y && x' != x && y' != y
  {
    if !Clean(y) {
      var i :| 0 <= i < |y| && y[i] == '|';
      x', y' := x + "|" + y[..i], y[i + 1..];
      assert y == y[..i] + "|" + y[i + 1..];
      assert x + "|" + y == x + "|" + (y[..i] + "|" + y[i + 1..]);
    } else {
      var i :| 0 <= i < |x| && x[i] == '|';
      x', y' := x[..i], x[i + 1..] + "|" + y;
      assert x == x[..i] + "|" + x[i + 1..];
    }
  }

  lemma {:induction false} MessageCollision(a: SignedMessage) returns (b: SignedMessage)
    requires !a.AllClean()
    ensures b != a && b.Text() == a.Text()
  {
    if !Clean(a.aad.room) || !Clean(a.aad.sender) {
      var aad := AadCollision(a.aad);
      b := a.(aad := aad);
    } else {
      var n, c := CutElsewhere(a.nonceB64, a.ciphertextB64);
      b := a.(nonceB64 := n, ciphertextB64 := c);
      SameTail(a.aad.Text() + "|", a.nonceB64, a.ciphertextB64, n, c);
    }
  }

  lemma {:induction false} SameTail(prefix: string, x: string, y: string, x': string, y': string)
    requires x' + "|" + y' == x + "|" + y
    ensures prefix + x' + "|" + y' == prefix + x + "|" + y
  {
    assert prefix + x' + "|" + y' == prefix + (x' + "|" + y');
    assert prefix + x + "|" + y == prefix + (x + "|" + y);
  }

  /** The message signing input identifies a signed message exactly when names and base64 fields have no bar. */
  lemma {:induction false} SignedMessageUnambiguous(a: SignedMessage)
    requires IsValidKeyId(a.aad.keyId)
    ensures (forall b: SignedMessage | b.Text() == a.Text() :: b == a) <==> a.AllClean()
  {
    if a.AllClean() {
      forall b: SignedMessage | b.Text() == a.Text() ensures b == a {
        CleanMessageUnique(a, b);
      }
    } else {
      var b := MessageCollision(a);
    }
  }

  lemma {:induction false} CleanEnvelopeUnique(a: SignedEnvelope, b: SignedEnvelope)
    requires IsValidKeyId(a.keyId) && a.AllClean() && a.Text() == b.Text()
    ensures a == b
  {
    a.TextIsJoined();
    b.TextIsJoined();
    JoinUnique(a.Fields(), b.Fields());
    var f, g := a.Fields(), b.Fields();
    assert f[1] == g[1] && f[2] == g[2] && f[3] == g[3] && f[4] == g[4] && f[5] == g[5] && f[6] == g[6] && f[7] == g[7];
    DecimalInjective(a.epoch, b.epoch);
  }

  lemma {:induction false} EnvelopeCollision(a: SignedEnvelope) returns (b: SignedEnvelope)
    requires !a.AllClean()
    ensures b != a && b.Text() == a.Text()
  {
    var p := "cli-chat-env/v2|";
    if !Clean(a.room) || !Clean(a.sender) {
      var r, s := CutElsewhere(a.room, a.sender);
      b := a.(room := r, sender := s);
      SameTail(p, a.room, a.sender, r, s);
    } else if !Clean(a.recipient) {
      var s, r := CutElsewhere(a.sender, a.recipient);
      b := a.(sender := s, recipient := r);
      SameTail(p + a.room + "|", a.sender, a.recipient, s, r);
    } else {
      var n, x := CutElsewhere(a.nonceB64, a.boxB64);
      b := a.(nonceB64 := n, boxB64 := x);
      SameTail(p + a.room + "|" + a.sender + "|" + a.recipient + "|" + Decimal(a.epoch) + "|" + a.keyId + "|",
               a.nonceB64, a.boxB64, n, x);
    }
  }

  /** The envelope signing input identifies a signed envelope exactly when names and base64 fields have no bar. */
  lemma {:induction false} SignedEnvelopeUnambiguous(a: SignedEnvelope)
    requires IsValidKeyId(a.keyId)
    ensures (forall b: SignedEnvelope | b.Text() == a.Text() :: b == a) <==> a.AllClean()
  {
    if a.AllClean() {
      forall b: SignedEnvelope | b.Text() == a.Text() ensures b == a {
        CleanEnvelopeUnique(a, b);
      }
    } else {
      var b := EnvelopeCollision(a);
    }
  }

  /** A signature on a message can never be presented as a signature on an envelope, or back. */
  lemma {:induction false} DomainsDisjoint(m: SignedMessage, e: SignedEnvelope)
    ensures m.Text() != e.Text()
  {
    assert m.Text()[10] == "cli-chat-e2ee/v2|"[10] == '2';
    assert e.Text()[10] == "cli-chat-env/v2|"[10] == 'n';
  }

  /** The formats on one example each. */
  lemma {:induction false} AadExample()
    ensures MessageAad("r", "a", 12, "00ff00ff", 7) == "cli-chat-e2ee/v2|r|a|12|00ff00ff|7"
  {
    assert Decimal(1) == "1" && Decimal(12) == "12" && Decimal(7) == "7";
    var p := "cli-chat-e2ee/v2|" + "r" + "|" + "a" + "|";
    assert p == "cli-chat-e2ee/v2|r|a|";
    assert p + "12" + "|" + "00ff00ff" + "|" + "7" == "cli-chat-e2ee/v2|r|a|" + "12|00ff00ff|7";
    assert "cli-chat-e2ee/v2|r|a|" + "12|00ff00ff|7" == "cli-chat-e2ee/v2|r|a|12|00ff00ff|7";
  }

  lemma {:induction false} EnvelopeExample()
    ensures EnvelopeSignInput("r", "a", "b", 7, "00ff00ff", "n", "x") == "cli-chat-env/v2|r|a|b|7|00ff00ff|n|x"
    ensures MessageSignInput("a", "n", "c") == "a|n|c"
  {
    assert Decimal(7) == "7";
    var p := "cli-chat-env/v2|" + "r" + "|" + "a" + "|" + "b" + "|";
    assert p == "cli-chat-env/v2|r|a|b|";
    assert p + "7" + "|" + "00ff00ff" + "|" + "n" + "|" + "x" == "cli-chat-env/v2|r|a|b|" + "7|00ff00ff|n|x";
    assert "cli-chat-env/v2|r|a|b|" + "7|00ff00ff|n|x" == "cli-chat-env/v2|r|a|b|7|00ff00ff|n|x";
  }

  // ---- key ids are the hexadecimal texts of 32-bit numbers -------------------------------

  function HexChar(d: nat): char
    requires d < 16
  {
    "0123456789abcdef"[d]
  }

  /** `new_key_id`: `n` in hexadecimal, with `k` digits. */
  function Hex(n: nat, k: nat): (text: string)
    ensures |text| == k
  {
    if k == 0 then "" else Hex(n / 16, k - 1) + [HexChar(n % 16)]
  }

  predicate IsHexText(text: string) {
    forall i | 0 <= i < |text| :: '0' <= text[i] <= '9' || 'a' <= text[i] <= 'f'
  }

  lemma {:induction false} HexIsHexText(n: nat, k: nat)
    ensures IsHexText(Hex(n, k))
  {
    if k != 0 {
      HexIsHexText(n / 16, k - 1);
    }
  }

  lemma {:induction false} HexTextIsHex(text: string) returns (n: nat)
    requires IsHexText(text)
    ensures text == Hex(n, |text|)
    decreases |text|
  {
    if text == "" {
      n := 0;
    } else {
      var k := |text| - 1;
      var high := HexTextIsHex(text[..k]);
      var c := text[k];
      var low: nat := if c <= '9' then (c - '0') as nat else (c - 'a') as nat + 10;
      n := 16 * high + low;
      assert n / 16 == high && n % 16 == low && HexChar(low) == c;
      assert text == text[..k] + [c];
    }
  }

  /** The valid key ids are exactly the texts that `new_key_id` can produce. */
  lemma {:induction false} KeyIdsAreHex(keyId: string)
    ensures IsValidKeyId(keyId) <==> exists n: nat :: keyId == Hex(n, 8)
  {
    if IsValidKeyId(keyId) {
      var n := HexTextIsHex(keyId);
    }
    forall n: nat | keyId == Hex(n, 8) ensures IsValidKeyId(keyId) {
      HexIsHexText(n, 8);
    }
  }
}

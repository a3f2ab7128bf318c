/**
 The state files of the client. Saving is described as a relation between a state and the JSON
 documents that represent it in any member order; loading is a function of the document.
 */
module Persistence {
  import opened Prelude
  import opened Sodium
  import opened SigningInputs
  import opened LargestIndices
  import opened Ratchet
  import opened GroupManager
  import opened GroupInvariant
  import opened GroupTrust
  import Trust = TrustStore

  /** A parsed document. `KeyText` is a string that decodes to key material, `Text` any other string. */
  datatype Json =
    | Null
    | Bool(flag: bool)
    | Num(number: int)
    | Text(text: string)
    | KeyText(key: Secret)
    | List(items: seq<Json>)
    | Object(fields: Fields)

  type Fields = seq<(string, Json)>

  function Lookup(fields: Fields, name: string): Option<Json> {
    if fields == [] then None
    else if fields[0].0 == name then Some(fields[0].1)
    else Lookup(fields[1..], name)
  }

  /** `get<uintN_t>`: a number or a boolean, cut to the width; anything else throws. */
  function AsUnsigned(j: Json, modulus: int): Option<nat>
    requires modulus > 0
  {
    match j
    case Num(n) => Some(n % modulus)
    case Bool(b) => Some(if b then 1 % modulus else 0)
    case _ => None
  }

  /** `value(name, 0)` for a 64-bit number. */
  function NumberOr0(fields: Fields, name: string): Option<Uint64> {
    match Lookup(fields, name)
    case None => Some(0)
    case Some(j) => AsUnsigned(j, TWO_64)
  }

  /** `value(name, "")`. */
  function TextOrEmpty(fields: Fields, name: string): Option<string> {
    match Lookup(fields, name)
    case None => Some("")
    case Some(j) => if j.Text? then Some(j.text) else None
  }

  predicate IsSpace(c: char) {
    c == ' ' || '\t' <= c <= '\r'
  }

  function SkipSpaces(text: string): string {
    if text != "" && IsSpace(text[0]) then SkipSpaces(text[1..]) else text
  }

  /** The longest prefix of digits. */
  function LeadingDigits(text: string): (digits: string)
    ensures forall i | 0 <= i < |digits| :: IsDigit(digits[i])
  {
    if text != "" && IsDigit(text[0]) then [text[0]] + LeadingDigits(text[1..]) else ""
  }

  /**
   `std::stoul`, cut to 32 bits: spaces, a sign and digits, with anything after them ignored; throws
   without a digit and beyond 64 bits. A minus sign negates modulo 2^64.
   */
  function ParseIndex(text: string): Option<Uint32> {
    var body := SkipSpaces(text);
    var signed := body != "" && (body[0] == '-' || body[0] == '+');
    var digits := LeadingDigits(if signed then body[1..] else body);
    var n := DecimalValue(digits);
    if digits == "" || n >= TWO_64 then None
    else Some((if signed && body[0] == '-' then TWO_64 - n else n) % TWO_32)
  }

  lemma {:induction false} AllDigits(text: string)
    requires forall i | 0 <= i < |text| :: IsDigit(text[i])
    ensures LeadingDigits(text) == text
  {
    if text != "" {
      AllDigits(text[1..]);
      assert [text[0]] + text[1..] == text;
    }
  }

  /** The parts of a text in the sense of `std::stoul`. */
  ghost predicate IsNumeral(spaces: string, sign: string, digits: string, rest: string) {
    && (forall c | c in spaces :: IsSpace(c)) && (sign == "" || sign == "+" || sign == "-")
    && (forall i | 0 <= i < |digits| :: IsDigit(digits[i])) && (rest != "" ==> !IsDigit(rest[0]))
    && (sign == "" && digits == "" && rest != "" ==> !IsSpace(rest[0]) && rest[0] != '+' && rest[0] != '-')
  }

  /** Spaces are skipped, a sign is honoured, what follows the digits is ignored, and the value is cut to 32 bits. */
  lemma {:induction false} ParseIndexExactly(spaces: string, sign: string, digits: string, rest: string)
    requires IsNumeral(spaces, sign, digits, rest)
    ensures ParseIndex(spaces + sign + digits + rest)
         == if digits == "" || DecimalValue(digits) >= 0x1_0000_0000_0000_0000 then None
            else Some((if sign == "-" then 0x1_0000_0000_0000_0000 - DecimalValue(digits) else DecimalValue(digits))
                      % 0x1_0000_0000)
  {
    hide DecimalValue;
    var body := sign + digits + rest;
    assert spaces + sign + digits + rest == spaces + body;
    assert body != "" ==> body[0] == (if sign != "" then sign[0] else if digits != "" then digits[0] else rest[0]);
    SpacesSkipped(spaces, body);
    DigitsTaken(digits, rest);
    if sign == "" {
      assert body == digits + rest;
    } else {
      assert body[1..] == digits + rest;
    }
  }

  lemma {:induction false} SpacesSkipped(spaces: string, body: string)
    requires (forall c | c in spaces :: IsSpace(c)) && (body != "" ==> !IsSpace(body[0]))
    ensures SkipSpaces(spaces + body) == body
    decreases |spaces|
  {
    if spaces == "" {
      assert spaces + body == body;
    } else {
      assert spaces[0] in spaces && (spaces + body)[0] == spaces[0];
      forall c | c in spaces[1..] ensures IsSpace(c) {
        assert c in spaces;
      }
      SpacesSkipped(spaces[1..], body);
      assert (spaces + body)[1..] == spaces[1..] + body;
    }
  }

  lemma {:induction false} DigitsTaken(digits: string, rest: string)
    requires (forall i | 0 <= i < |digits| :: IsDigit(digits[i])) && (rest != "" ==> !IsDigit(rest[0]))
    ensures LeadingDigits(digits + rest) == digits
    decreases |digits|
  {
    if digits == "" {
      assert digits + rest == rest;
    } else {
      DigitsTaken(digits[1..], rest);
      assert (digits + rest)[1..] == digits[1..] + rest && [digits[0]] + digits[1..] == digits;
    }
  }

  lemma {:induction false} LookupAt(fields: Fields, i: nat)
    requires i < |fields| && forall j | 0 <= j < i :: fields[j].0 != fields[i].0
    ensures Lookup(fields, fields[i].0) == Some(fields[i].1)
    decreases i
  {
    if i != 0 {
      LookupAt(fields[1..], i - 1);
    }
  }

  // ---- objects as listings of a map ------------------------------------------------------

  /** The names of the first `n` members. */
  function NamesBefore(fields: Fields, n: nat): set<string>
    requires n <= |fields|
  {
    set i | 0 <= i < n :: fields[i].0
  }

  ghost predicate DistinctNames(fields: Fields) {
    forall i, j | 0 <= i < j < |fields| :: fields[i].0 != fields[j].0
  }

  ghost predicate ListsKeys(fields: Fields, keys: set<string>) {
    DistinctNames(fields) && NamesBefore(fields, |fields|) == keys
  }

  lemma {:induction false} NextName(fields: Fields, n: nat)
    requires n < |fields| && DistinctNames(fields)
    ensures NamesBefore(fields, n + 1) == NamesBefore(fields, n) + {fields[n].0}
    ensures fields[n].0 !in NamesBefore(fields, n)
  {
    assert forall i | 0 <= i < n :: fields[i].0 in NamesBefore(fields, n);
  }

  lemma {:induction false} NewName(fields: Fields, field: (string, Json))
    requires DistinctNames(fields) && field.0 !in NamesBefore(fields, |fields|)
    ensures ListsKeys(fields + [field], NamesBefore(fields, |fields|) + {field.0})
  {
    var all := fields + [field];
    forall i | 0 <= i < |fields| ensures fields[i].0 in NamesBefore(fields, |fields|) {
    }
    forall u ensures u in NamesBefore(all, |all|) <==> u in NamesBefore(fields, |fields|) + {field.0} {
      if u in NamesBefore(fields, |fields|) {
        var i :| 0 <= i < |fields| && fields[i].0 == u;
        assert all[i].0 == u;
      }
      assert all[|fields|].0 == field.0;
    }
  }

  // ---- inbound chains --------------------------------------------------------------------

  predicate HasSpace(m: map<nat, Secret>) {
    |m| < MAX_SKIPPED_MESSAGE_KEYS
  }

  /** One member of "skipped": a key of the wrong size or beyond the cap is passed over. */
  function LoadSkippedKey(acc: map<nat, Secret>, field: (string, Json)): Option<map<nat, Secret>> {
    match ParseIndex(field.0)
    case None => None
    case Some(index) =>
      match field.1
      case KeyText(k) => Some(if k.Size() == KEY_BYTES && HasSpace(acc) then acc[index := k] else acc)
      case Text(_) => Some(acc)
      case _ => None
  }

  function LoadSkipped(fields: Fields): Option<map<nat, Secret>> {
    if fields == [] then Some(map[])
    else
      match LoadSkipped(fields[..|fields| - 1])
      case None => None
      case Some(acc) => LoadSkippedKey(acc, fields[|fields| - 1])
  }

  method ReadSkipped(fields: Fields) returns (skipped: Option<map<nat, Secret>>)
    ensures skipped == LoadSkipped(fields)
  {
    hide LoadSkippedKey;
    skipped := Some(map[]);
    for i := 0 to |fields|
      invariant skipped.Some? && skipped == LoadSkipped(fields[..i])
    {
      assert fields[..i + 1][..i] == fields[..i];
      skipped := LoadSkippedKey(skipped.value, fields[i]);
      if skipped.None? {
        FailsForGood(fields, i + 1);
        return;
      }
    }
    assert fields[..|fields|] == fields;
  }

  lemma {:induction false} FailsForGood(fields: Fields, n: nat)
    requires n <= |fields| && LoadSkipped(fields[..n]).None?
    ensures LoadSkipped(fields).None?
    decreases |fields| - n
  {
    if n < |fields| {
      assert fields[..n + 1][..n] == fields[..n];
      FailsForGood(fields, n + 1);
    } else {
      assert fields[..n] == fields;
    }
  }

  function LoadInbound(j: Json): Option<Inbound> {
    if !j.Object? then None
    else
      var chain, next := Lookup(j.fields, "chain"), Lookup(j.fields, "next");
      if chain.None? || next.None? || !chain.value.KeyText? || chain.value.key.Size() != KEY_BYTES
         || AsUnsigned(next.value, TWO_32).None?
      then None
      else
        var skipped := Lookup(j.fields, "skipped");
        var keys := if skipped.Some? && skipped.value.Object? then LoadSkipped(skipped.value.fields) else Some(map[]);
        if keys.None? then None
        else Some(Inbound(chain.value.key, AsUnsigned(next.value, TWO_32).value, keys.value))
  }

  /** `fields` lists the cache, one member per key, named by the index in decimal. */
  ghost predicate SkippedText(m: map<nat, Secret>, fields: Fields) {
    && ListsKeys(fields, set n | n in m :: Decimal(n))
    && forall i, n | 0 <= i < |fields| && n in m && fields[i].0 == Decimal(n) :: fields[i].1 == KeyText(m[n])
  }

  ghost predicate InboundText(k: Inbound, j: Json) {
    && j.Object? && |j.fields| == 3
    && j.fields[0] == ("chain", KeyText(k.chain)) && j.fields[1] == ("next", Num(k.next))
    && j.fields[2].0 == "skipped" && j.fields[2].1.Object? && SkippedText(k.skipped, j.fields[2].1.fields)
  }

  lemma {:induction false} ParseIndexOf(n: nat)
    requires n < TWO_32
    ensures ParseIndex(Decimal(n)) == Some(n)
  {
    DecimalRoundTrip(n);
    AllDigits(Decimal(n));
  }

  /** Part of a cache is smaller than the cache. */
  lemma {:induction false} PartHasSpace(part: map<nat, Secret>, m: map<nat, Secret>, n: nat)
    requires WithinCap(m) && part.Keys <= m.Keys && n in m && n !in part
    ensures HasSpace(part)
  {
    assert part.Keys <= m.Keys - {n};
    SubsetSize(part.Keys, m.Keys - {n});
    assert |part| == |part.Keys| && |m| == |m.Keys|;
  }

  lemma {:induction false} IndexNamed(m: map<nat, Secret>, fields: Fields, i: nat) returns (n: nat)
    requires SkippedText(m, fields) && i < |fields|
    ensures n in m && fields[i] == (Decimal(n), KeyText(m[n]))
  {
    assert fields[i].0 in NamesBefore(fields, |fields|);
    n :| n in m && fields[i].0 == Decimal(n);
  }

  /** After `n` members exactly the named keys have been read. */
  lemma {:induction false} LoadedPart(m: map<nat, Secret>, fields: Fields, n: nat)
    requires SkippedText(m, fields) && n <= |fields| && WithinCap(m)
    requires forall i | i in m :: i < TWO_32 && m[i].Size() == KEY_BYTES
    ensures LoadSkipped(fields[..n]).Some?
    ensures var part := LoadSkipped(fields[..n]).value;
      && part.Keys <= m.Keys && (forall i | i in part :: part[i] == m[i])
      && (forall i | i in m :: i in part <==> Decimal(i) in NamesBefore(fields, n))
  {
    hide NamesBefore, Decimal, WithinCap, HasSpace, ParseIndex;
    if n == 0 {
      NoNames(fields);
    } else {
      LoadedPart(m, fields, n - 1);
      var part := LoadSkipped(fields[..n - 1]).value;
      assert fields[..n][..n - 1] == fields[..n - 1];
      var i := IndexNamed(m, fields, n - 1);
      NextName(fields, n - 1);
      ParseIndexOf(i);
      PartHasSpace(part, m, i);
      forall k | k in m && k != i ensures Decimal(k) != Decimal(i) {
        DecimalInjective(k, i);
      }
    }
  }

  lemma {:induction false} NoNames(fields: Fields)
    ensures NamesBefore(fields, 0) == {}
  {
  }

  lemma {:induction false} LoadedKeysFit(fields: Fields)
    ensures LoadSkipped(fields).Some? ==>
      var m := LoadSkipped(fields).value;
      WithinCap(m) && forall i | i in m :: i < TWO_32 && m[i].Size() == KEY_BYTES
  {
    if fields != [] {
      LoadedKeysFit(fields[..|fields| - 1]);
    }
  }

  /** A member of "skipped" that can be read: a number for a name and a string for a value. */
  predicate Readable(field: (string, Json)) {
    ParseIndex(field.0).Some? && (field.1.KeyText? || field.1.Text?)
  }

  predicate HoldsKey(field: (string, Json)) {
    field.1.KeyText? && field.1.key.Size() == 32
  }

  /**
   The cache loads exactly when every member can be read. It then holds only keys of the right size
   under their own index, and all of them unless it is full.
   */
  lemma {:induction false} LoadSkippedExactly(fields: Fields)
    ensures LoadSkipped(fields).Some? <==> forall i | 0 <= i < |fields| :: Readable(fields[i])
    ensures LoadSkipped(fields).Some? ==>
      var m := LoadSkipped(fields).value;
      && (forall j | j in m :: exists i | 0 <= i < |fields| ::
            HoldsKey(fields[i]) && ParseIndex(fields[i].0) == Some(j) && fields[i].1.key == m[j])
      && (HasSpace(m) ==> forall i | 0 <= i < |fields| && HoldsKey(fields[i]) :: ParseIndex(fields[i].0).value in m)
    decreases |fields|
  {
    hide ParseIndex, HasSpace;
    if fields != [] {
      var n := |fields| - 1;
      LoadSkippedExactly(fields[..n]);
      assert forall i | 0 <= i < n :: fields[..n][i] == fields[i];
      if LoadSkipped(fields).Some? {
        var before, m := LoadSkipped(fields[..n]).value, LoadSkipped(fields).value;
        if before != m {
          SpaceBefore(before, ParseIndex(fields[n].0).value, fields[n].1.key);
        }
        forall j | j in m
          ensures exists i | 0 <= i < |fields| ::
                    HoldsKey(fields[i]) && ParseIndex(fields[i].0) == Some(j) && fields[i].1.key == m[j]
        {
          if j in before && m[j] == before[j] {
            var i :| 0 <= i < n && HoldsKey(fields[..n][i]) && ParseIndex(fields[..n][i].0) == Some(j)
                     && fields[..n][i].1.key == before[j];
            assert HoldsKey(fields[i]);
          } else {
            assert HoldsKey(fields[n]);
          }
        }
      }
    }
  }

  lemma {:induction false} SpaceBefore(m: map<nat, Secret>, i: nat, key: Secret)
    ensures HasSpace(m[i := key]) ==> HasSpace(m)
  {
    if i in m {
      assert m[i := key].Keys == m.Keys;
    } else {
      assert m[i := key].Keys == m.Keys + {i};
    }
    assert |m| == |m.Keys| && |m[i := key]| == |m[i := key].Keys|;
  }

  lemma {:induction false} InboundFields(k: Inbound, j: Json)
    requires InboundText(k, j)
    ensures Lookup(j.fields, "chain") == Some(KeyText(k.chain)) && Lookup(j.fields, "next") == Some(Num(k.next))
    ensures Lookup(j.fields, "skipped") == Some(j.fields[2].1)
  {
    assert "chain" != "next" && "chain" != "skipped" && "next" != "skipped";
    LookupAt(j.fields, 0);
    LookupAt(j.fields, 1);
    LookupAt(j.fields, 2);
  }

  /**
   A saved chain loads back to itself exactly when its keys have the right size and its cache is
   within the cap at which the loader stops.
   */
  lemma {:induction false} InboundRoundTrip(k: Inbound, j: Json)
    requires InboundText(k, j)
    ensures LoadInbound(j) == Some(k) <==> ChainOk(k)
  {
    hide SkippedText, Lookup, WithinCap, LoadSkipped, NamesBefore;
    InboundFields(k, j);
    var fields := j.fields[2].1.fields;
    LoadedKeysFit(fields);
    if ChainOk(k) {
      LoadedAll(k.skipped, fields);
      assert LoadSkipped(fields) == Some(k.skipped);
    }
  }

  lemma {:induction false} LoadedAll(m: map<nat, Secret>, fields: Fields)
    requires SkippedText(m, fields) && WithinCap(m)
    requires forall i | i in m :: i < TWO_32 && m[i].Size() == KEY_BYTES
    ensures LoadSkipped(fields) == Some(m)
  {
    hide Decimal, WithinCap, LoadSkipped;
    LoadedPart(m, fields, |fields|);
    assert fields[..|fields|] == fields;
    assert forall i | i in m :: Decimal(i) in NamesBefore(fields, |fields|);
    var part := LoadSkipped(fields).value;
    assert forall i :: i in part <==> i in m;
    assert part == m;
  }

  // ---- outbound chains -------------------------------------------------------------------

  function OutboundText(o: Outbound): Json {
    Object([("chain", KeyText(o.chain)), ("index", Num(o.index)), ("key_id", Text(o.keyId))])
  }

  function LoadOutbound(j: Json): Option<Outbound> {
    if !j.Object? then None
    else
      var keyId, chain, index := Lookup(j.fields, "key_id"), Lookup(j.fields, "chain"), Lookup(j.fields, "index");
      if keyId.None? || chain.None? || index.None? || !keyId.value.Text? || !chain.value.KeyText?
         || AsUnsigned(index.value, TWO_32).None?
         || chain.value.key.Size() != KEY_BYTES || !IsValidKeyId(keyId.value.text)
      then None
      else Some(Outbound(chain.value.key, AsUnsigned(index.value, TWO_32).value, keyId.value.text))
  }

  lemma {:induction false} OutboundRoundTrip(o: Outbound)
    ensures LoadOutbound(OutboundText(o)) == Some(o) <==> o.chain.Size() == KEY_BYTES && IsValidKeyId(o.keyId)
  {
    hide Lookup;
    var f := OutboundText(o).fields;
    assert "chain" != "index" && "chain" != "key_id" && "index" != "key_id";
    LookupAt(f, 0);
    LookupAt(f, 1);
    LookupAt(f, 2);
  }

  // ---- a peer's chains -------------------------------------------------------------------

  /** None when it throws, nothing when the entry is passed over. */
  function LoadChain(j: Json): Option<seq<PeerChain>> {
    if !j.Object? || Lookup(j.fields, "state").None? then Some([])
    else
      var chain := LoadInbound(Lookup(j.fields, "state").value);
      if chain.None? then Some([])
      else
        var epoch, keyId := NumberOr0(j.fields, "epoch"), TextOrEmpty(j.fields, "key_id");
        if epoch.None? || keyId.None? then None
        else Some([PeerChain(epoch.value, keyId.value, chain.value)])
  }

  function LoadChains(items: seq<Json>): Option<seq<PeerChain>> {
    if items == [] then Some([])
    else
      var before, last := LoadChains(items[..|items| - 1]), LoadChain(items[|items| - 1]);
      if before.None? || last.None? then None else Some(before.value + last.value)
  }

  ghost predicate ChainText(c: PeerChain, j: Json) {
    && j.Object? && |j.fields| == 3
    && j.fields[0] == ("epoch", Num(c.epoch)) && j.fields[1] == ("key_id", Text(c.keyId))
    && j.fields[2].0 == "state" && InboundText(c.chain, j.fields[2].1)
  }

  ghost predicate ChainsText(chains: seq<PeerChain>, items: seq<Json>) {
    |items| == |chains| && forall i | 0 <= i < |chains| :: ChainText(chains[i], items[i])
  }

  lemma {:induction false} ChainLoads(c: PeerChain, j: Json)
    requires ChainText(c, j) && ChainOk(c.chain)
    ensures LoadChain(j) == Some([c])
  {
    hide Lookup, InboundText, ChainOk, LoadInbound;
    assert "epoch" != "key_id" && "epoch" != "state" && "key_id" != "state";
    LookupAt(j.fields, 0);
    LookupAt(j.fields, 1);
    LookupAt(j.fields, 2);
    InboundRoundTrip(c.chain, j.fields[2].1);
  }

  lemma {:induction false} ChainsLoad(chains: seq<PeerChain>, items: seq<Json>)
    requires ChainsText(chains, items) && forall i | 0 <= i < |chains| :: ChainOk(chains[i].chain)
    ensures LoadChains(items) == Some(chains)
    decreases |chains|
  {
    hide ChainText, ChainOk, LoadChain;
    if chains != [] {
      var n := |chains| - 1;
      ChainsLoad(chains[..n], items[..n]);
      ChainLoads(chains[n], items[n]);
      assert chains == chains[..n] + [chains[n]];
    }
  }

  // ---- all peers of a room ---------------------------------------------------------------

  /** A peer that ends up without chains gets no entry. */
  function LoadPeer(acc: map<string, seq<PeerChain>>, field: (string, Json)): Option<map<string, seq<PeerChain>>> {
    if !field.1.List? then Some(acc)
    else
      match LoadChains(field.1.items)
      case None => None
      case Some(chains) =>
        Some(if chains == [] then acc
             else acc[field.0 := (if field.0 in acc then acc[field.0] else []) + chains])
  }

  function LoadPeers(fields: Fields): Option<map<string, seq<PeerChain>>> {
    if fields == [] then Some(map[])
    else
      match LoadPeers(fields[..|fields| - 1])
      case None => None
      case Some(acc) => LoadPeer(acc, fields[|fields| - 1])
  }

  ghost predicate PeersText(peers: map<string, seq<PeerChain>>, fields: Fields) {
    && ListsKeys(fields, peers.Keys)
    && forall i | 0 <= i < |fields| && fields[i].0 in peers ::
         fields[i].1.List? && ChainsText(peers[fields[i].0], fields[i].1.items)
  }

  lemma {:induction false} PeersLoadedPart(peers: map<string, seq<PeerChain>>, fields: Fields, n: nat)
    requires PeersText(peers, fields) && n <= |fields| && forall u | u in peers :: ListOk(peers[u])
    ensures LoadPeers(fields[..n]).Some?
    ensures var part := LoadPeers(fields[..n]).value;
      part.Keys == NamesBefore(fields, n) && forall u | u in part :: u in peers && part[u] == peers[u]
  {
    hide NamesBefore, ChainsText, LoadChains, ListOk;
    if n == 0 {
      NoNames(fields);
    } else {
      PeersLoadedPart(peers, fields, n - 1);
      assert fields[..n][..n - 1] == fields[..n - 1];
      NextName(fields, n - 1);
      NamedIn(fields, n - 1, peers.Keys);
      var u := fields[n - 1].0;
      ListLoads(peers[u], fields[n - 1].1.items);
      var none: seq<PeerChain> := [];
      assert none + peers[u] == peers[u];
    }
  }

  lemma {:induction false} ListLoads(chains: seq<PeerChain>, items: seq<Json>)
    requires ListOk(chains) && ChainsText(chains, items)
    ensures chains != [] && LoadChains(items) == Some(chains)
  {
    hide ChainsText, LoadChains;
    ChainsLoad(chains, items);
  }

  lemma {:induction false} NamedIn(fields: Fields, i: nat, keys: set<string>)
    requires ListsKeys(fields, keys) && i < |fields|
    ensures fields[i].0 in keys
  {
    assert fields[i].0 in NamesBefore(fields, |fields|);
  }

  lemma {:induction false} PeersLoad(peers: map<string, seq<PeerChain>>, fields: Fields)
    requires PeersText(peers, fields) && forall u | u in peers :: ListOk(peers[u])
    ensures LoadPeers(fields) == Some(peers)
  {
    hide ListOk, LoadPeers;
    PeersLoadedPart(peers, fields, |fields|);
    assert fields[..|fields|] == fields;
    var part := LoadPeers(fields).value;
    assert part == peers;
  }

  // ---- rooms -----------------------------------------------------------------------------

  function LoadTexts(items: seq<Json>): Option<seq<string>> {
    if forall i | 0 <= i < |items| :: items[i].Text?
    then Some(seq(|items|, i requires 0 <= i < |items| => items[i].text))
    else None
  }

  function TextsOf(names: seq<string>): seq<Json> {
    seq(|names|, i requires 0 <= i < |names| => Text(names[i]))
  }

  /** A list member of a room: absent or not an array means empty, a wrong element throws. */
  function LoadNames(fields: Fields, name: string): Option<seq<string>> {
    match Lookup(fields, name)
    case None => Some([])
    case Some(j) => if j.List? then LoadTexts(j.items) else Some([])
  }

  function LoadRoom(j: Json): Option<RoomState> {
    if !j.Object? then None
    else
      var epoch, ownEpoch := NumberOr0(j.fields, "epoch"), NumberOr0(j.fields, "own_epoch");
      var members, distributed := LoadNames(j.fields, "members"), LoadNames(j.fields, "distributed");
      var own, peers := Lookup(j.fields, "own"), Lookup(j.fields, "peers");
      var chains := if peers.Some? && peers.value.Object? then LoadPeers(peers.value.fields) else Some(map[]);
      if epoch.None? || ownEpoch.None? || members.None? || distributed.None? || chains.None? then None
      else
        Some(RoomState(epoch.value, members.value,
                       if own.Some? && own.value.Object? then LoadOutbound(own.value) else None,
                       ownEpoch.value, (set m | m in distributed.value), chains.value))
  }

  ghost predicate RoomText(st: RoomState, j: Json) {
    && j.Object? && |j.fields| == 6
    && j.fields[0].0 == "distributed" && j.fields[0].1.List? && NamesText(st.distributed, j.fields[0].1.items)
    && j.fields[1] == ("epoch", Num(st.epoch))
    && j.fields[2] == ("members", List(TextsOf(st.members)))
    && j.fields[3] == ("own", if st.own.Some? then OutboundText(st.own.value) else Null)
    && j.fields[4] == ("own_epoch", Num(st.ownEpoch))
    && j.fields[5].0 == "peers" && j.fields[5].1.Object? && PeersText(st.peers, j.fields[5].1.fields)
  }

  ghost predicate NamesText(names: set<string>, items: seq<Json>) {
    exists order: seq<string> :: items == TextsOf(order) && (set m | m in order) == names
  }

  lemma {:induction false} TextsLoad(names: seq<string>)
    ensures LoadTexts(TextsOf(names)) == Some(names)
  {
    var items := TextsOf(names);
    assert seq(|items|, i requires 0 <= i < |items| => items[i].text) == names;
  }

  lemma {:induction false} RoomFields(st: RoomState, j: Json, i: nat)
    requires RoomText(st, j) && i < 6
    ensures Lookup(j.fields, j.fields[i].0) == Some(j.fields[i].1)
  {
    hide PeersText, NamesText;
    assert "distributed" != "epoch" && "distributed" != "members" && "distributed" != "own" && "distributed" != "peers";
    assert "epoch" != "members" && "epoch" != "own" && "epoch" != "own_epoch" && "epoch" != "peers";
    assert "members" != "own" && "members" != "own_epoch" && "members" != "peers";
    assert "own" != "own_epoch" && "own" != "peers" && "own_epoch" != "peers" && "distributed" != "own_epoch";
    LookupAt(j.fields, i);
  }

  /** A room that satisfies the room invariant survives saving and loading unchanged. */
  lemma {:induction false} RoomRoundTrip(st: RoomState, j: Json)
    requires RoomText(st, j) && RoomOk(st)
    ensures LoadRoom(j) == Some(st)
  {
    hide Lookup, PeersText, LoadTexts, LoadPeers, ListOk, LoadOutbound;
    RoomFields(st, j, 0);
    RoomFields(st, j, 1);
    RoomFields(st, j, 2);
    RoomFields(st, j, 3);
    RoomFields(st, j, 4);
    RoomFields(st, j, 5);
    var order: seq<string> :| j.fields[0].1.items == TextsOf(order) && (set m | m in order) == st.distributed;
    TextsLoad(order);
    TextsLoad(st.members);
    PeersLoad(st.peers, j.fields[5].1.fields);
    if st.own.Some? {
      OutboundRoundTrip(st.own.value);
    }
  }

  /** Loading stops at the first room that throws, and keeps the rooms before it. */
  function LoadRooms(rooms: map<string, RoomState>, fields: Fields): (map<string, RoomState>, bool) {
    if fields == [] then (rooms, true)
    else
      var n := |fields| - 1;
      var (before, ok) := LoadRooms(rooms, fields[..n]);
      var st := LoadRoom(fields[n].1);
      if ok && st.Some? then (before[fields[n].0 := st.value], true) else (before, false)
  }

  /** Loading succeeds exactly when every room loads; otherwise it keeps the rooms before the first that does not. */
  lemma {:induction false} LoadRoomsExactly(rooms: map<string, RoomState>, fields: Fields, n: nat)
    requires n <= |fields| && (forall i | 0 <= i < n :: LoadRoom(fields[i].1).Some?)
    requires n < |fields| ==> LoadRoom(fields[n].1).None?
    ensures LoadRooms(rooms, fields) == (LoadRooms(rooms, fields[..n]).0, n == |fields|)
    ensures LoadRooms(rooms, fields[..n]).1
    decreases |fields|
  {
    hide LoadRoom;
    if n == |fields| {
      assert fields[..n] == fields;
      if n != 0 {
        LoadRoomsExactly(rooms, fields[..n - 1], n - 1);
      }
    } else {
      var k := |fields| - 1;
      if n < k {
        LoadRoomsExactly(rooms, fields[..k], n);
      } else {
        LoadRoomsExactly(rooms, fields[..n], n);
      }
      assert fields[..k][..n] == fields[..n];
    }
  }

  /** Entries of a peer's list that hold no loadable chain are passed over, and an empty document is an empty room. */
  lemma {:induction false} UnusableIsPassedOver(items: seq<Json>, j: Json)
    requires !j.Object? || Lookup(j.fields, "state").None? || LoadInbound(Lookup(j.fields, "state").value).None?
    ensures LoadChains(items + [j]) == LoadChains(items)
    ensures LoadRoom(Object([])) == Some(EMPTY_ROOM)
    ensures forall acc, u :: LoadPeer(acc, (u, Null)) == Some(acc) && LoadPeer(acc, (u, List([]))) == Some(acc)
  {
    hide LoadInbound;
    assert (items + [j])[..|items|] == items;
    var nobody: seq<string> := [];
    assert (set m | m in nobody) == {};
    var none: seq<PeerChain> := [];
    if LoadChains(items).Some? {
      assert LoadChains(items).value + none == LoadChains(items).value;
    }
  }

  datatype File = Missing | Unparsable | Document(json: Json)

  function LoadFile(rooms: map<string, RoomState>, file: File): (map<string, RoomState>, bool) {
    match file
    case Missing => (rooms, true)
    case Unparsable => (rooms, false)
    case Document(j) =>
      if !j.Object? || Lookup(j.fields, "rooms").None? then (rooms, false)
      else
        match Lookup(j.fields, "rooms").value
        case Object(fields) => LoadRooms(rooms, fields)
        case Null => (rooms, true)
        case List(items) => (rooms, items == [])
        case _ => (rooms, false)
  }

  /** A missing file is no error and changes nothing; one that cannot be read, or has no rooms, is one. */
  lemma {:induction false} LoadFileAnswers(rooms: map<string, RoomState>, j: Json)
    ensures LoadFile(rooms, Missing) == (rooms, true) && LoadFile(rooms, Unparsable) == (rooms, false)
    ensures (j.Object? ==> Lookup(j.fields, "rooms").None?) ==> LoadFile(rooms, Document(j)) == (rooms, false)
  {
  }

  /**
   A member that is absent is zero, empty or nobody. A number is cut to 64 bits, a boolean is a number,
   and anything else fails; a text must be one; names must be texts in a list, and no list means nobody.
   */
  lemma {:induction false} FieldsReadExactly(fields: Fields, name: string, j: Json)
    ensures Lookup(fields, name).None? ==>
      NumberOr0(fields, name) == Some(0) && TextOrEmpty(fields, name) == Some("") && LoadNames(fields, name) == Some([])
    ensures Lookup(fields, name) == Some(j) ==>
      && NumberOr0(fields, name) == (match j
                                     case Num(n) => Some(n % 0x1_0000_0000_0000_0000)
                                     case Bool(b) => Some(if b then 1 else 0)
                                     case _ => None)
      && (TextOrEmpty(fields, name).Some? <==> j.Text?) && (j.Text? ==> TextOrEmpty(fields, name) == Some(j.text))
      && (!j.List? ==> LoadNames(fields, name) == Some([]))
      && (j.List? ==> (LoadNames(fields, name).Some? <==> forall i | 0 <= i < |j.items| :: j.items[i].Text?))
  {
  }

  ghost predicate RoomsText(rooms: map<string, RoomState>, fields: Fields) {
    && ListsKeys(fields, rooms.Keys)
    && forall i | 0 <= i < |fields| && fields[i].0 in rooms :: RoomText(rooms[fields[i].0], fields[i].1)
  }

  ghost predicate FileText(rooms: map<string, RoomState>, j: Json) {
    && j.Object? && |j.fields| == 2
    && j.fields[0].0 == "rooms" && j.fields[0].1.Object? && RoomsText(rooms, j.fields[0].1.fields)
    && j.fields[1] == ("version", Num(2))
  }

  lemma {:induction false} RoomsLoadedPart(rooms: map<string, RoomState>, fields: Fields, n: nat)
    requires RoomsText(rooms, fields) && n <= |fields| && forall r | r in rooms :: RoomOk(rooms[r])
    ensures var (part, ok) := LoadRooms(map[], fields[..n]);
      ok && part.Keys == NamesBefore(fields, n) && forall r | r in part :: r in rooms && part[r] == rooms[r]
  {
    hide NamesBefore, RoomText, LoadRoom, RoomOk;
    if n == 0 {
      NoNames(fields);
    } else {
      RoomsLoadedPart(rooms, fields, n - 1);
      assert fields[..n][..n - 1] == fields[..n - 1];
      NextName(fields, n - 1);
      NamedIn(fields, n - 1, rooms.Keys);
      RoomRoundTrip(rooms[fields[n - 1].0], fields[n - 1].1);
    }
  }

  /** After any run, loading what was saved into a fresh manager restores every room exactly. */
  lemma {:induction false} SavedRoomsLoad(c: Client, ops: seq<Op>, j: Json)
    requires ClientOk(c) && FileText(Exec(c, ops).rooms, j)
    ensures LoadFile(map[], Document(j)) == (Exec(c, ops).rooms, true)
  {
    hide RoomOk, LoadRooms, Exec, RoomText;
    var rooms := Exec(c, ops).rooms;
    RunOk(c, ops);
    LookupAt(j.fields, 0);
    var fields := j.fields[0].1.fields;
    RoomsLoadedPart(rooms, fields, |fields|);
    assert fields[..|fields|] == fields;
    var part := LoadRooms(map[], fields).0;
    assert part == rooms;
  }

  // ---- saving ----------------------------------------------------------------------------

  lemma {:induction false} SkippedTextGrows(m: map<nat, Secret>, fields: Fields, n: nat, key: Secret)
    requires SkippedText(m, fields) && n !in m
    ensures SkippedText(m[n := key], fields + [(Decimal(n), KeyText(key))])
  {
    hide Decimal, NamesBefore;
    var all := fields + [(Decimal(n), KeyText(key))];
    forall k | k in m ensures Decimal(k) != Decimal(n) {
      DecimalInjective(k, n);
    }
    NewName(fields, all[|fields|]);
    assert (set k | k in m[n := key] :: Decimal(k)) == (set k | k in m :: Decimal(k)) + {Decimal(n)};
    forall i, k | 0 <= i < |all| && k in m[n := key] && all[i].0 == Decimal(k)
      ensures all[i].1 == KeyText(m[n := key][k])
    {
      DecimalInjective(k, n);
      if i < |fields| {
        NamedIn(fields, i, set k | k in m :: Decimal(k));
      }
    }
  }

  method SaveSkipped(m: map<nat, Secret>) returns (fields: Fields)
    ensures SkippedText(m, fields)
  {
    hide SkippedText, Decimal;
    var todo := m.Keys;
    fields := [];
    ghost var done: map<nat, Secret> := map[];
    EmptySkippedText();
    while todo != {}
      invariant todo <= m.Keys && done == m - todo && SkippedText(done, fields)
      decreases |todo|
    {
      var n :| n in todo;
      SkippedTextGrows(done, fields, n, m[n]);
      fields := fields + [(Decimal(n), KeyText(m[n]))];
      done := done[n := m[n]];
      todo := todo - {n};
    }
    assert done == m;
  }

  lemma {:induction false} EmptySkippedText()
    ensures SkippedText(map[], [])
  {
  }

  method SaveInbound(k: Inbound) returns (j: Json)
    ensures InboundText(k, j)
  {
    hide SkippedText;
    var skipped := SaveSkipped(k.skipped);
    j := Object([("chain", KeyText(k.chain)), ("next", Num(k.next)), ("skipped", Object(skipped))]);
  }

  method SaveChains(chains: seq<PeerChain>) returns (items: seq<Json>)
    ensures ChainsText(chains, items)
  {
    hide InboundText;
    items := [];
    for i := 0 to |chains|
      invariant ChainsText(chains[..i], items)
    {
      var c := chains[i];
      var state := SaveInbound(c.chain);
      items := items + [Object([("epoch", Num(c.epoch)), ("key_id", Text(c.keyId)), ("state", state)])];
    }
    assert chains[..|chains|] == chains;
  }

  lemma {:induction false} PeersTextGrows(peers: map<string, seq<PeerChain>>, fields: Fields, u: string,
                                          chains: seq<PeerChain>, items: seq<Json>)
    requires PeersText(peers, fields) && u !in peers && ChainsText(chains, items)
    ensures PeersText(peers[u := chains], fields + [(u, List(items))])
  {
    hide NamesBefore, ChainsText;
    var all := fields + [(u, List(items))];
    NewName(fields, all[|fields|]);
    assert peers[u := chains].Keys == peers.Keys + {u};
    forall i | 0 <= i < |fields| ensures fields[i].0 in peers {
      NamedIn(fields, i, peers.Keys);
    }
  }

  method SavePeers(peers: map<string, seq<PeerChain>>) returns (fields: Fields)
    ensures PeersText(peers, fields)
  {
    hide PeersText, ChainsText;
    var todo := peers.Keys;
    fields := [];
    ghost var done: map<string, seq<PeerChain>> := map[];
    EmptyPeersText();
    while todo != {}
      invariant todo <= peers.Keys && done == peers - todo && PeersText(done, fields)
      decreases |todo|
    {
      var u :| u in todo;
      var items := SaveChains(peers[u]);
      PeersTextGrows(done, fields, u, peers[u], items);
      fields := fields + [(u, List(items))];
      done := done[u := peers[u]];
      todo := todo - {u};
    }
    assert done == peers;
  }

  lemma {:induction false} EmptyPeersText()
    ensures PeersText(map[], []) && RoomsText(map[], [])
  {
  }

  method SaveNames(names: set<string>) returns (items: seq<Json>)
    ensures NamesText(names, items)
  {
    var todo, order := names, [];
    while todo != {}
      invariant todo <= names && forall m :: m in order <==> m in names - todo
      decreases |todo|
    {
      var m :| m in todo;
      order := order + [m];
      todo := todo - {m};
    }
    assert (set m | m in order) == names;
    items := TextsOf(order);
  }

  method SaveRoom(st: RoomState) returns (j: Json)
    ensures RoomText(st, j)
  {
    hide PeersText, NamesText;
    var distributed := SaveNames(st.distributed);
    var peers := SavePeers(st.peers);
    j := Object([("distributed", List(distributed)), ("epoch", Num(st.epoch)), ("members", List(TextsOf(st.members))),
                 ("own", if st.own.Some? then OutboundText(st.own.value) else Null),
                 ("own_epoch", Num(st.ownEpoch)), ("peers", Object(peers))]);
  }

  lemma {:induction false} RoomsTextGrows(rooms: map<string, RoomState>, fields: Fields, r: string, st: RoomState,
                                          j: Json)
    requires RoomsText(rooms, fields) && r !in rooms && RoomText(st, j)
    ensures RoomsText(rooms[r := st], fields + [(r, j)])
  {
    hide NamesBefore, RoomText;
    var all := fields + [(r, j)];
    NewName(fields, all[|fields|]);
    assert rooms[r := st].Keys == rooms.Keys + {r};
    forall i | 0 <= i < |fields| ensures fields[i].0 in rooms {
      NamedIn(fields, i, rooms.Keys);
    }
  }

  method SaveRooms(rooms: map<string, RoomState>) returns (j: Json)
    ensures FileText(rooms, j)
  {
    hide RoomsText, RoomText;
    var todo := rooms.Keys;
    var fields := [];
    ghost var done: map<string, RoomState> := map[];
    EmptyPeersText();
    while todo != {}
      invariant todo <= rooms.Keys && done == rooms - todo && RoomsText(done, fields)
      decreases |todo|
    {
      var r :| r in todo;
      var room := SaveRoom(rooms[r]);
      RoomsTextGrows(done, fields, r, rooms[r], room);
      fields := fields + [(r, room)];
      done := done[r := rooms[r]];
      todo := todo - {r};
    }
    assert done == rooms;
    j := Object([("rooms", Object(fields)), ("version", Num(2))]);
  }

  // ---- pins ------------------------------------------------------------------------------

  function FlagOrFalse(fields: Fields, name: string): Option<bool> {
    match Lookup(fields, name)
    case None => Some(false)
    case Some(j) => if j.Bool? then Some(j.flag) else None
  }

  /** One pinned user; an entry without a box key is passed over, a malformed one throws. */
  function LoadPin(users: map<string, Trust.TrustedIdentity>, field: (string, Json)): Option<map<string,
                   Trust.TrustedIdentity>> {
    if !field.1.Object? then None
    else
      var f := field.1.fields;
      var x, ed, verified := TextOrEmpty(f, "x25519"), TextOrEmpty(f, "ed25519"), FlagOrFalse(f, "verified");
      if x.None? || ed.None? || verified.None? then None
      else if x.value == "" then Some(users)
      else Some(users[field.0 := Trust.TrustedIdentity(x.value, ed.value, verified.value)])
  }

  function LoadPins(fields: Fields): (map<string, Trust.TrustedIdentity>, bool) {
    if fields == [] then (map[], true)
    else
      var (before, ok) := LoadPins(fields[..|fields| - 1]);
      var after := LoadPin(before, fields[|fields| - 1]);
      if ok && after.Some? then (after.value, true) else (before, false)
  }

  /** Pins load until the first malformed entry, and what was loaded before it stays. */
  lemma {:induction false} LoadPinsExactly(fields: Fields, n: nat)
    requires n < |fields| && LoadPins(fields[..n]).1 && LoadPin(LoadPins(fields[..n]).0, fields[n]).None?
    ensures LoadPins(fields) == (LoadPins(fields[..n]).0, false)
    decreases |fields|
  {
    hide LoadPin;
    var k := |fields| - 1;
    if n < k {
      assert fields[..k][..n] == fields[..n] && fields[..k][n] == fields[n];
      LoadPinsExactly(fields[..k], n);
    }
  }

  /** An entry is malformed exactly when it is no object or a member of it has the wrong type. */
  lemma {:induction false} PinReadExactly(users: map<string, Trust.TrustedIdentity>, field: (string, Json))
    ensures LoadPin(users, field).None? <==>
      || !field.1.Object?
      || (Lookup(field.1.fields, "x25519").Some? && !Lookup(field.1.fields, "x25519").value.Text?)
      || (Lookup(field.1.fields, "ed25519").Some? && !Lookup(field.1.fields, "ed25519").value.Text?)
      || (Lookup(field.1.fields, "verified").Some? && !Lookup(field.1.fields, "verified").value.Bool?)
  {
  }

  function PinText(id: Trust.TrustedIdentity): Json {
    Object([("ed25519", Text(id.ed)), ("verified", Bool(id.verified)), ("x25519", Text(id.x))])
  }

  ghost predicate PinsText(users: map<string, Trust.TrustedIdentity>, fields: Fields) {
    && ListsKeys(fields, users.Keys)
    && forall i | 0 <= i < |fields| && fields[i].0 in users :: fields[i].1 == PinText(users[fields[i].0])
  }

  lemma {:induction false} PinLoads(users: map<string, Trust.TrustedIdentity>, u: string, id: Trust.TrustedIdentity)
    ensures LoadPin(users, (u, PinText(id))) == Some(if id.x == "" then users else users[u := id])
  {
    hide Lookup;
    var f := PinText(id).fields;
    assert "ed25519" != "verified" && "ed25519" != "x25519" && "verified" != "x25519";
    LookupAt(f, 0);
    LookupAt(f, 1);
    LookupAt(f, 2);
  }

  lemma {:induction false} PinsLoadedPart(users: map<string, Trust.TrustedIdentity>, fields: Fields, n: nat)
    requires PinsText(users, fields) && n <= |fields|
    ensures var (part, ok) := LoadPins(fields[..n]);
      && ok
      && (forall u :: u in part <==> u in users && u in NamesBefore(fields, n) && users[u].x != "")
      && (forall u | u in part :: part[u] == users[u])
  {
    hide NamesBefore, LoadPin, PinText;
    if n == 0 {
      NoNames(fields);
    } else {
      PinsLoadedPart(users, fields, n - 1);
      assert fields[..n][..n - 1] == fields[..n - 1];
      NextName(fields, n - 1);
      NamedIn(fields, n - 1, users.Keys);
      var u := fields[n - 1].0;
      PinLoads(LoadPins(fields[..n - 1]).0, u, users[u]);
      assert fields[n - 1] == (u, PinText(users[u]));
    }
  }

  /** Pins survive saving and loading exactly when each has a box key. */
  lemma {:induction false} PinsRoundTrip(users: map<string, Trust.TrustedIdentity>, fields: Fields)
    requires PinsText(users, fields)
    ensures LoadPins(fields) == (users, true) <==> forall u | u in users :: users[u].x != ""
  {
    hide LoadPins;
    PinsLoadedPart(users, fields, |fields|);
    assert fields[..|fields|] == fields;
    var part := LoadPins(fields).0;
    if forall u | u in users :: users[u].x != "" {
      assert part == users;
    }
  }

  /** `TrustStore::load`: the old pins are dropped once the document turns out to be an object. */
  function LoadTrust(users: map<string, Trust.TrustedIdentity>, file: File)
    : (map<string, Trust.TrustedIdentity>, bool)
  {
    if !file.Document? || !file.json.Object? then (users, false)
    else
      match Lookup(file.json.fields, "users")
      case Some(Object(fields)) => LoadPins(fields)
      case _ => (map[], true)
  }

  /** Without a readable object the pins stay; an object without users drops them all. */
  lemma {:induction false} LoadTrustAnswers(users: map<string, Trust.TrustedIdentity>, j: Json)
    ensures LoadTrust(users, Missing) == (users, false) && LoadTrust(users, Unparsable) == (users, false)
    ensures !j.Object? ==> LoadTrust(users, Document(j)) == (users, false)
    ensures j.Object? && (Lookup(j.fields, "users").Some? ==> !Lookup(j.fields, "users").value.Object?)
            ==> LoadTrust(users, Document(j)) == (map[], true)
  {
  }

  ghost predicate TrustText(users: map<string, Trust.TrustedIdentity>, j: Json) {
    && j.Object? && |j.fields| == 2
    && j.fields[0].0 == "users" && j.fields[0].1.Object? && PinsText(users, j.fields[0].1.fields)
    && j.fields[1] == ("version", Num(1))
  }

  lemma {:induction false} PinsTextGrows(users: map<string, Trust.TrustedIdentity>, fields: Fields, u: string,
                                         id: Trust.TrustedIdentity)
    requires PinsText(users, fields) && u !in users
    ensures PinsText(users[u := id], fields + [(u, PinText(id))])
  {
    hide NamesBefore, PinText;
    var all := fields + [(u, PinText(id))];
    NewName(fields, all[|fields|]);
    assert users[u := id].Keys == users.Keys + {u};
    forall i | 0 <= i < |fields| ensures fields[i].0 in users {
      NamedIn(fields, i, users.Keys);
    }
  }

  method SaveTrust(users: map<string, Trust.TrustedIdentity>) returns (j: Json)
    ensures TrustText(users, j)
  {
    hide PinText;
    var todo := users.Keys;
    var fields := [];
    ghost var done: map<string, Trust.TrustedIdentity> := map[];
    while todo != {}
      invariant todo <= users.Keys && done == users - todo && PinsText(done, fields)
      decreases |todo|
    {
      var u :| u in todo;
      PinsTextGrows(done, fields, u, users[u]);
      fields := fields + [(u, PinText(users[u]))];
      done := done[u := users[u]];
      todo := todo - {u};
    }
    assert done == users;
    j := Object([("users", Object(fields)), ("version", Num(1))]);
  }

  /** Written pins load back, after every run of the client, since nothing pins an empty key. */
  lemma {:induction false} SavedTrustLoads(c: Client, ops: seq<Op>, before: map<string, Trust.TrustedIdentity>, j: Json)
    requires Trust.PinsKeyed(c.trust.pins) && TrustText(Exec(c, ops).trust.pins.users, j)
    ensures LoadTrust(before, Document(j)) == (Exec(c, ops).trust.pins.users, true)
  {
    hide Exec, PinsText, LoadPins, Trust.Run, EventsAlong;
    TrustRun(c, ops);
    Trust.PinsKeyedAlongRun(c.trust, EventsAlong(c, ops));
    LookupAt(j.fields, 0);
    PinsRoundTrip(Exec(c, ops).trust.pins.users, j.fields[0].1.fields);
  }
}

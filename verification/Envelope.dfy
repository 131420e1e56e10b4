/** The two AEAD layers of a private row (src/crypto/envelope.rs), over an ideal AEAD in the sense of NIST SP 800-38D:
    a ciphertext opens only if it came out of an encryption under that key, nonce and associated data. */
module Envelope {
  import opened Text
  import opened Utf8

  const ALG: string := "aes-256-gcm/envelope-v1"
  const NONCE_LEN: nat := 12
  const DEK_LEN: nat := 32

  /** One encryption: everything that went in. */
  datatype Sealing = Sealing(key: Bytes, nonce: Bytes, aad: Bytes, plain: Bytes)

  datatype Aead = Aead(encrypt: Sealing -> Bytes) {
    /** Under one key, nonce and associated data, two plaintexts never share a ciphertext. */
    ghost predicate Lossless() {
      forall a: Sealing, b: Sealing ::
        a.key == b.key && a.nonce == b.nonce && a.aad == b.aad && encrypt(a) == encrypt(b) ==> a == b
    }

    ghost predicate Made(log: set<Sealing>, key: Bytes, nonce: Bytes, aad: Bytes, ct: Bytes, s: Sealing) {
      s in log && s.key == key && s.nonce == nonce && s.aad == aad && encrypt(s) == ct
    }

    ghost function Decrypt(log: set<Sealing>, key: Bytes, nonce: Bytes, aad: Bytes, ct: Bytes): Option<Bytes> {
      if s :| Made(log, key, nonce, aad, ct, s) then Some(s.plain) else None
    }
  }

  /** The ciphertext side of one row. */
  datatype Row = Row(contentCt: Bytes, contentNonce: Bytes, dekWrapped: Bytes, dekNonce: Bytes, encAlg: string)

  /** One `seal` call, with the randomness it drew. */
  datatype Call = Call(kek: Bytes, id: Bytes, plaintext: string, dek: Bytes, contentNonce: Bytes, dekNonce: Bytes) {
    function Content(): Sealing {
      Sealing(dek, contentNonce, id, Encode(plaintext))
    }

    function Wrap(): Sealing {
      Sealing(kek, dekNonce, id, dek)
    }

    function Stored(aead: Aead): Row {
      Row(aead.encrypt(Content()), contentNonce, aead.encrypt(Wrap()), dekNonce, ALG)
    }

    predicate WellSized() {
      |dek| == DEK_LEN && |contentNonce| == NONCE_LEN && |dekNonce| == NONCE_LEN
    }
  }

  function Nonce(raw: Bytes): Option<Bytes> {
    if |raw| == NONCE_LEN then Some(raw) else None
  }

  /** Every way a row can fail to open is one and the same failure. */
  ghost function Open(aead: Aead, log: set<Sealing>, kek: Bytes, id: Bytes, row: Row): Option<string> {
    if row.encAlg != ALG then None
    else
      match (Nonce(row.contentNonce), Nonce(row.dekNonce))
      case (Some(contentNonce), Some(dekNonce)) =>
        (match aead.Decrypt(log, kek, dekNonce, id, row.dekWrapped)
         case None => None
         case Some(dek) =>
           if |dek| != DEK_LEN then None
           else
             match aead.Decrypt(log, dek, contentNonce, id, row.contentCt)
             case None => None
             case Some(content) => Decode(content))
      case _ => None
  }

  // ---- every encryption there has been ----

  function Log(calls: seq<Call>): set<Sealing> {
    if calls == [] then {} else Log(calls[..|calls| - 1]) + {calls[|calls| - 1].Content(), calls[|calls| - 1].Wrap()}
  }

  /** Data keys are drawn fresh: none repeats, and none is a key-encryption key. */
  ghost predicate FreshKeys(calls: seq<Call>, keks: set<Bytes>) {
    && (forall i | 0 <= i < |calls| :: calls[i].WellSized() && calls[i].kek in keks && calls[i].dek !in keks)
    && (forall i, j | 0 <= i < j < |calls| :: calls[i].dek != calls[j].dek)
  }

  lemma {:induction false} LogHolds(calls: seq<Call>, s: Sealing)
    ensures s in Log(calls) <==>
            exists i :: 0 <= i < |calls| && (s == calls[i].Content() || s == calls[i].Wrap())
  {
    if calls != [] {
      var front := calls[..|calls| - 1];
      LogHolds(front, s);
      if i :| 0 <= i < |front| && (s == front[i].Content() || s == front[i].Wrap()) {
        assert calls[i] == front[i];
      }
      forall i | 0 <= i < |calls| - 1 ensures calls[i] == front[i] {}
    }
  }

  /** Under a key-encryption key nothing was ever encrypted but wrapped data keys. */
  lemma UnderKek(calls: seq<Call>, keks: set<Bytes>, s: Sealing) returns (i: nat)
    requires FreshKeys(calls, keks) && s in Log(calls) && s.key in keks
    ensures i < |calls| && s == calls[i].Wrap()
  {
    LogHolds(calls, s);
    i :| 0 <= i < |calls| && (s == calls[i].Content() || s == calls[i].Wrap());
    assert calls[i].dek !in keks;
  }

  /** Under a data key only the content of its own call was ever encrypted. */
  lemma UnderDek(calls: seq<Call>, keks: set<Bytes>, i: nat, s: Sealing)
    requires FreshKeys(calls, keks) && i < |calls| && s in Log(calls) && s.key == calls[i].dek
    ensures s == calls[i].Content()
  {
    LogHolds(calls, s);
    var j :| 0 <= j < |calls| && (s == calls[j].Content() || s == calls[j].Wrap());
    assert calls[j].kek in keks && calls[i].dek !in keks;
    assert j == i;
  }

  lemma DecryptsWhatItMade(aead: Aead, log: set<Sealing>, s: Sealing)
    requires aead.Lossless() && s in log
    ensures aead.Decrypt(log, s.key, s.nonce, s.aad, aead.encrypt(s)) == Some(s.plain)
  {
    assert aead.Made(log, s.key, s.nonce, s.aad, aead.encrypt(s), s);
    forall t | aead.Made(log, s.key, s.nonce, s.aad, aead.encrypt(s), t) ensures t == s {}
  }

  /** A stored row opens, under its own key and id, to what was sealed. */
  lemma OpensBack(aead: Aead, calls: seq<Call>, keks: set<Bytes>, i: nat)
    requires aead.Lossless() && FreshKeys(calls, keks) && i < |calls|
    ensures Open(aead, Log(calls), calls[i].kek, calls[i].id, calls[i].Stored(aead)) == Some(calls[i].plaintext)
  {
    var c, log := calls[i], Log(calls);
    LogHolds(calls, c.Content());
    LogHolds(calls, c.Wrap());
    assert c.WellSized();
    DecryptsWhatItMade(aead, log, c.Wrap());
    DecryptsWhatItMade(aead, log, c.Content());
    DecodeEncode(c.plaintext);
  }

  /** A row opens exactly when its label is the one label, its nonces are twelve bytes, its wrapped key opens under the
      given key and id to thirty-two bytes, and its content opens under those to text; and the text is what it opens
      to. */
  lemma OpensExactly(aead: Aead, log: set<Sealing>, kek: Bytes, id: Bytes, row: Row)
    ensures Open(aead, log, kek, id, row).Some? <==>
            && row.encAlg == "aes-256-gcm/envelope-v1" && |row.contentNonce| == 12 && |row.dekNonce| == 12
            && var dek := aead.Decrypt(log, kek, row.dekNonce, id, row.dekWrapped);
            && dek.Some? && |dek.value| == 32
            && var content := aead.Decrypt(log, dek.value, row.contentNonce, id, row.contentCt);
            content.Some? && Decode(content.value).Some?
    ensures Open(aead, log, kek, id, row).Some? ==>
            var dek := aead.Decrypt(log, kek, row.dekNonce, id, row.dekWrapped).value;
            Open(aead, log, kek, id, row) == Decode(aead.Decrypt(log, dek, row.contentNonce, id, row.contentCt).value)
  {
  }

  /** Whatever columns an adversary puts together, a row that opens is the stored row of one `seal` call made for that
      id under that key, and opens to that call's plaintext. */
  lemma OpensOnlyWhole(aead: Aead, calls: seq<Call>, keks: set<Bytes>, kek: Bytes, id: Bytes, row: Row)
    requires aead.Lossless() && FreshKeys(calls, keks) && kek in keks
    requires Open(aead, Log(calls), kek, id, row).Some?
    ensures exists i :: 0 <= i < |calls| && calls[i].kek == kek && calls[i].id == id && row == calls[i].Stored(aead)
                        && Open(aead, Log(calls), kek, id, row) == Some(calls[i].plaintext)
  {
    var log := Log(calls);
    var w :| aead.Made(log, kek, row.dekNonce, id, row.dekWrapped, w)
      && aead.Decrypt(log, kek, row.dekNonce, id, row.dekWrapped) == Some(w.plain);
    var i := UnderKek(calls, keks, w);
    var dek := calls[i].dek;
    var s :| aead.Made(log, dek, row.contentNonce, id, row.contentCt, s)
      && aead.Decrypt(log, dek, row.contentNonce, id, row.contentCt) == Some(s.plain);
    UnderDek(calls, keks, i, s);
    assert row == calls[i].Stored(aead);
    OpensBack(aead, calls, keks, i);
  }

  /** The content of one call, its nonce from another, the wrapped key of a third, its nonce from a fourth. */
  function Mixed(aead: Aead, content: Call, contentNonce: Call, key: Call, keyNonce: Call): Row {
    Row(content.Stored(aead).contentCt, contentNonce.contentNonce, key.Stored(aead).dekWrapped, keyNonce.dekNonce, ALG)
  }

  /** Columns taken from different calls open together exactly when they are the four columns of one call, made for that
      id under that key. */
  lemma MixedColumnsDoNotOpen(aead: Aead, calls: seq<Call>, keks: set<Bytes>, kek: Bytes, id: Bytes,
                              a: nat, b: nat, c: nat, d: nat)
    requires aead.Lossless() && FreshKeys(calls, keks) && kek in keks
    requires a < |calls| && b < |calls| && c < |calls| && d < |calls|
    ensures Open(aead, Log(calls), kek, id, Mixed(aead, calls[a], calls[b], calls[c], calls[d])).Some? <==>
            exists i :: 0 <= i < |calls| && calls[i].kek == kek && calls[i].id == id
                        && Mixed(aead, calls[a], calls[b], calls[c], calls[d]) == calls[i].Stored(aead)
  {
    var row := Mixed(aead, calls[a], calls[b], calls[c], calls[d]);
    if Open(aead, Log(calls), kek, id, row).Some? {
      OpensOnlyWhole(aead, calls, keks, kek, id, row);
    }
    if i :| 0 <= i < |calls| && calls[i].kek == kek && calls[i].id == id && row == calls[i].Stored(aead) {
      OpensBack(aead, calls, keks, i);
    }
  }

  // ---- sealing ----

  lemma LogSnoc(calls: seq<Call>, c: Call)
    ensures Log(calls + [c]) == Log(calls) + {c.Content()} + {c.Wrap()}
  {
    assert (calls + [c])[..|calls|] == calls;
  }

  /** The operating system's randomness, copied into the caller's buffer; `None` is a refusal. */
  method FillRandom(buffer: array<byte>, drawn: Option<Bytes>) returns (ok: bool)
    requires drawn.Some? ==> |drawn.value| == buffer.Length
    modifies buffer
    ensures ok <==> drawn.Some?
    ensures ok ==> buffer[..] == drawn.value
  {
    if drawn.None? {
      return false;
    }
    for i := 0 to buffer.Length
      invariant buffer[..i] == drawn.value[..i]
    {
      buffer[i] := drawn.value[i];
    }
    ok := true;
  }

  /** The three buffers, filled in the order they are drawn. */
  method DrawAll(drawnDek: Option<Bytes>, drawnContentNonce: Option<Bytes>, drawnDekNonce: Option<Bytes>)
    returns (drawn: Option<(Bytes, Bytes, Bytes)>)
    requires drawnDek.Some? ==> |drawnDek.value| == DEK_LEN
    requires drawnContentNonce.Some? ==> |drawnContentNonce.value| == NONCE_LEN
    requires drawnDekNonce.Some? ==> |drawnDekNonce.value| == NONCE_LEN
    ensures drawn == if drawnDek.Some? && drawnContentNonce.Some? && drawnDekNonce.Some?
                     then Some((drawnDek.value, drawnContentNonce.value, drawnDekNonce.value)) else None
  {
    var dek := new byte[DEK_LEN](_ => 0);
    var ok := FillRandom(dek, drawnDek);
    if !ok { return None; }
    var contentNonce := new byte[NONCE_LEN](_ => 0);
    var dekNonce := new byte[NONCE_LEN](_ => 0);
    ok := FillRandom(contentNonce, drawnContentNonce);
    if !ok { return None; }
    ok := FillRandom(dekNonce, drawnDekNonce);
    if !ok { return None; }
    drawn := Some((dek[..], contentNonce[..], dekNonce[..]));
  }

  class Vault {
    const aead: Aead
    var log: set<Sealing>
    var calls: seq<Call>

    ghost predicate Valid()
      reads this
    {
      log == Log(calls)
    }

    constructor (aead: Aead)
      ensures Valid() && calls == [] && this.aead == aead
    {
      this.aead := aead;
      log, calls := {}, [];
    }

    method Encrypt(s: Sealing) returns (ct: Bytes)
      modifies this`log
      ensures ct == aead.encrypt(s) && log == old(log) + {s}
    {
      ct := aead.encrypt(s);
      log := log + {s};
    }

    /** `None` for a draw the operating system refused, in the order the draws are made. */
    method Seal(kek: Bytes, id: Bytes, plaintext: string,
                drawnDek: Option<Bytes>, drawnContentNonce: Option<Bytes>, drawnDekNonce: Option<Bytes>)
      returns (row: Option<Row>)
      requires Valid()
      requires drawnDek.Some? ==> |drawnDek.value| == DEK_LEN
      requires drawnContentNonce.Some? ==> |drawnContentNonce.value| == NONCE_LEN
      requires drawnDekNonce.Some? ==> |drawnDekNonce.value| == NONCE_LEN
      modifies this
      ensures Valid()
      ensures row.Some? <==> drawnDek.Some? && drawnContentNonce.Some? && drawnDekNonce.Some?
      ensures row.None? ==> calls == old(calls)
      ensures row.Some? ==>
                var c := Call(kek, id, plaintext, drawnDek.value, drawnContentNonce.value, drawnDekNonce.value);
                calls == old(calls) + [c] && row.value == c.Stored(aead) && c.WellSized()
      ensures row.Some? ==>
                && row.value.contentCt ==
                   aead.encrypt(Sealing(drawnDek.value, drawnContentNonce.value, id, Encode(plaintext)))
                && row.value.dekWrapped == aead.encrypt(Sealing(kek, drawnDekNonce.value, id, drawnDek.value))
                && row.value.contentNonce == drawnContentNonce.value && row.value.dekNonce == drawnDekNonce.value
                && row.value.encAlg == "aes-256-gcm/envelope-v1"
    {
      var drawn := DrawAll(drawnDek, drawnContentNonce, drawnDekNonce);
      if drawn.None? {
        return None;
      }
      var (dek, contentNonce, dekNonce) := drawn.value;
      ghost var c := Call(kek, id, plaintext, dek, contentNonce, dekNonce);
      LogSnoc(calls, c);
      var contentCt := Encrypt(Sealing(dek, contentNonce, id, Utf8.Encode(plaintext)));
      var dekWrapped := Encrypt(Sealing(kek, dekNonce, id, dek));
      row := Some(Row(contentCt, contentNonce, dekWrapped, dekNonce, ALG));
      calls := calls + [Call(kek, id, plaintext, dek, contentNonce, dekNonce)];
    }
  }
}

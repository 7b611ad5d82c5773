/**
 * Moving secrets between stores with different root keys in a passphrase-sealed blob.
 *
 * The cipher, the key derivation and the JSON printer are parameters; what is assumed of them
 * is the predicate `Ideal`.
 */
module Portable {
  import opened Prelude
  import opened Envelope
  import opened KeyRotation
  import Strings = Text
  import Utf8

  type Bytes = seq<Utf8.Byte>

  /** "BAYZEXP1" */
  const MAGIC: Bytes := [66, 65, 89, 90, 69, 88, 80, 49]
  const FORMAT_VERSION: Utf8.Byte := 1
  const SALT_LENGTH := 16
  const IV_LENGTH := 12
  const TAG_LENGTH := 16
  const HEADER_LENGTH := 9
  const MIN_BLOB_LENGTH := 53
  const MAX_PAYLOAD_BYTES := 8 * 1024 * 1024

  /** Parsed JSON, as far as a payload looks into it. */
  datatype Value = Num(n: int) | Str(s: Text) | Arr(items: seq<Value>) | Obj(fields: map<string, Value>) | Other

  datatype Sealed = Sealed(tag: Bytes, ciphertext: Bytes)

  datatype Platform = Platform(
    derive: (Text, Bytes) -> Key,
    seal: (Key, Bytes, Bytes, Bytes) -> Sealed,
    open: (Key, Bytes, Bytes, Sealed) -> Option<Bytes>,
    stringify: Value -> Bytes,
    parse: Bytes -> Option<Value>)

  /** What is sealed opens under its key; ciphertexts are as long as plaintexts; printing reads back. */
  ghost predicate Ideal(p: Platform) {
    && (forall key, iv, aad, plain :: |p.seal(key, iv, aad, plain).tag| == TAG_LENGTH
                                      && |p.seal(key, iv, aad, plain).ciphertext| == |plain|)
    && (forall key, iv, aad, plain :: p.open(key, iv, aad, p.seal(key, iv, aad, plain)) == Some(plain))
    && (forall value :: p.parse(p.stringify(value)) == Some(value))
  }

  /**
   * A sealed box opens under its own key, vector and associated data only. This is asked of the
   * box at hand, because no cipher with tags of a fixed length gives it of all boxes at once.
   */
  ghost predicate Binds(p: Platform, key: Key, iv: Bytes, aad: Bytes, box: Sealed) {
    forall k, i, a :: p.open(k, i, a, box).Some? ==> k == key && i == iv && a == aad
  }

  datatype Entry = Entry(name: Text, value: Text)

  datatype Error = Truncated | WrongMagic | WrongVersion | TooLarge | PassphraseBlank | CannotOpen | BadPayload
                 | NameConflict | CorruptRow | MissingRow | WriteFailed

  predicate IsBlank(passphrase: Text) {
    forall i :: 0 <= i < |passphrase| ==>
      (passphrase[i] < 0xD800 || passphrase[i] >= 0xE000) && Strings.IsSpace(passphrase[i] as char)
  }

  /** White space and line terminators of ECMAScript, by their code units. */
  predicate IsWhite(u: CodeUnit) {
    || u in {9, 10, 11, 12, 13, 32, 160, 5760, 8232, 8233, 8239, 8287, 12288, 65279} || 8192 <= u <= 8202
  }

  lemma BlankExactly(passphrase: Text)
    ensures IsBlank(passphrase) <==> forall u :: u in passphrase ==> IsWhite(u)
  {
    if IsBlank(passphrase) {
      forall u | u in passphrase ensures IsWhite(u) {
        var i :| 0 <= i < |passphrase| && passphrase[i] == u;
        UnitIsWhite(passphrase[i]);
      }
    } else {
      var i :| 0 <= i < |passphrase|
               && !((passphrase[i] < 0xD800 || passphrase[i] >= 0xE000) && Strings.IsSpace(passphrase[i] as char));
      UnitIsWhite(passphrase[i]);
      assert passphrase[i] in passphrase;
    }
  }

  lemma UnitIsWhite(u: CodeUnit)
    ensures (u < 0xD800 || u >= 0xE000) && Strings.IsSpace(u as char) <==> IsWhite(u)
  {
  }

  // ---- the payload -------------------------------------------------------------------------------

  function EntryValue(e: Entry): Value {
    Obj(map["name" := Str(e.name), "value" := Str(e.value)])
  }

  function PayloadValue(entries: seq<Entry>): Value {
    Obj(map["version" := Num(1),
            "secrets" := Arr(seq(|entries|, i requires 0 <= i < |entries| => EntryValue(entries[i])))])
  }

  function ReadEntry(v: Value): Option<Entry> {
    if v.Obj? && "name" in v.fields && v.fields["name"].Str? && v.fields["name"].s != []
       && "value" in v.fields && v.fields["value"].Str?
    then Some(Entry(v.fields["name"].s, v.fields["value"].s)) else None
  }

  function ReadEntries(items: seq<Value>): (entries: Option<seq<Entry>>)
    ensures entries.Some? ==> |entries.value| == |items|
  {
    if items == [] then Some([])
    else
      var early := ReadEntries(items[..|items| - 1]);
      var last := ReadEntry(items[|items| - 1]);
      if early.None? || last.None? then None else Some(early.value + [last.value])
  }

  function ReadPayload(v: Option<Value>): Option<seq<Entry>> {
    if v.None? || !v.value.Obj? then None
    else
      var fields := v.value.fields;
      if "version" !in fields || fields["version"] != Num(1) then None
      else if "secrets" !in fields || !fields["secrets"].Arr? then None
      else ReadEntries(fields["secrets"].items)
  }

  lemma {:induction false} EntriesReadBack(entries: seq<Entry>, items: seq<Value>)
    requires |items| == |entries|
    requires forall i :: 0 <= i < |entries| ==> entries[i].name != [] && items[i] == EntryValue(entries[i])
    ensures ReadEntries(items) == Some(entries)
    decreases |items|
  {
    if items != [] {
      var n := |items| - 1;
      EntriesReadBack(entries[..n], items[..n]);
      FrontAndLast(entries);
    }
  }

  lemma PayloadReadsBack(entries: seq<Entry>)
    requires forall i :: 0 <= i < |entries| ==> entries[i].name != []
    ensures ReadPayload(Some(PayloadValue(entries))) == Some(entries)
  {
    EntriesReadBack(entries, PayloadValue(entries).fields["secrets"].items);
  }

  lemma {:induction false} EntriesAre(items: seq<Value>, i: nat)
    requires ReadEntries(items).Some? && i < |items|
    ensures items[i].Obj? && "name" in items[i].fields && "value" in items[i].fields
    ensures var entry := ReadEntries(items).value[i];
            && entry.name != []
            && items[i].fields["name"] == Str(entry.name) && items[i].fields["value"] == Str(entry.value)
    decreases |items|
  {
    if i < |items| - 1 {
      EntriesAre(items[..|items| - 1], i);
    }
  }

  /** A payload that is accepted is of version 1 and lists exactly the entries read. */
  lemma PayloadIs(v: Value)
    requires ReadPayload(Some(v)).Some?
    ensures v.Obj? && "version" in v.fields && v.fields["version"] == Num(1)
    ensures "secrets" in v.fields && v.fields["secrets"].Arr?
    ensures var entries, items := ReadPayload(Some(v)).value, v.fields["secrets"].items;
            && |entries| == |items|
            && forall i :: 0 <= i < |items| ==>
                 && entries[i].name != [] && items[i].Obj? && "name" in items[i].fields && "value" in items[i].fields
                 && items[i].fields["name"] == Str(entries[i].name) && items[i].fields["value"] == Str(entries[i].value)
  {
    var entries, items := ReadPayload(Some(v)).value, v.fields["secrets"].items;
    forall i | 0 <= i < |items|
      ensures && entries[i].name != [] && items[i].Obj? && "name" in items[i].fields && "value" in items[i].fields
              && items[i].fields["name"] == Str(entries[i].name) && items[i].fields["value"] == Str(entries[i].value)
    {
      EntriesAre(items, i);
    }
  }

  // ---- the blob ----------------------------------------------------------------------------------

  function Header(): (header: Bytes)
    ensures |header| == HEADER_LENGTH
  {
    MAGIC + [FORMAT_VERSION]
  }

  function Blob(p: Platform, passphrase: Text, salt: Bytes, iv: Bytes, entries: seq<Entry>): Bytes {
    var box := SealedPayload(p, passphrase, salt, iv, entries);
    Header() + salt + iv + box.tag + box.ciphertext
  }

  /** Bytes as ASCII text: the high bit of each is dropped. */
  function Ascii(bytes: Bytes): (r: Bytes)
    ensures |r| == |bytes| && forall i :: 0 <= i < |bytes| ==> r[i] == bytes[i] % 128
  {
    seq(|bytes|, i requires 0 <= i < |bytes| => bytes[i] % 128)
  }

  /** Everything that is checked before the store is touched. */
  function OpenBlob(p: Platform, bytes: Bytes, passphrase: Text): Result<seq<Entry>, Error> {
    if |bytes| < MIN_BLOB_LENGTH then Err(Truncated)
    else if Ascii(bytes[..8]) != MAGIC then Err(WrongMagic)
    else if bytes[8] != FORMAT_VERSION then Err(WrongVersion)
    else if |bytes| - MIN_BLOB_LENGTH > MAX_PAYLOAD_BYTES then Err(TooLarge)
    else if IsBlank(passphrase) then Err(PassphraseBlank)
    else
      match p.open(p.derive(passphrase, bytes[9..25]), bytes[25..37], bytes[..9], Sealed(bytes[37..53], bytes[53..]))
      case None => Err(CannotOpen)
      case Some(plain) =>
        match ReadPayload(p.parse(plain))
        case None => Err(BadPayload)
        case Some(entries) => Ok(entries)
  }

  lemma BlobParts(header: Bytes, salt: Bytes, iv: Bytes, tag: Bytes, ciphertext: Bytes)
    requires |header| == 9 && |salt| == 16 && |iv| == 12 && |tag| == 16
    ensures var blob := header + salt + iv + tag + ciphertext;
            && |blob| == MIN_BLOB_LENGTH + |ciphertext| && blob[..9] == header && blob[9..25] == salt
            && blob[25..37] == iv && blob[37..53] == tag && blob[53..] == ciphertext
  {
  }

  function SealedPayload(p: Platform, passphrase: Text, salt: Bytes, iv: Bytes, entries: seq<Entry>): Sealed {
    p.seal(p.derive(passphrase, salt), iv, Header(), p.stringify(PayloadValue(entries)))
  }

  /** What a blob comes to whose header, salt and vector, but not its box, may have been edited. */
  function Edited(p: Platform, passphrase: Text, salt: Bytes, iv: Bytes, entries: seq<Entry>,
                  header': Bytes, salt': Bytes, iv': Bytes, other: Text): Result<seq<Entry>, Error>
    requires |header'| == HEADER_LENGTH
  {
    if Ascii(header'[..8]) != MAGIC then Err(WrongMagic)
    else if header'[8] != FORMAT_VERSION then Err(WrongVersion)
    else if |p.stringify(PayloadValue(entries))| > MAX_PAYLOAD_BYTES then Err(TooLarge)
    else if IsBlank(other) then Err(PassphraseBlank)
    else if header' == Header() && iv' == iv && p.derive(other, salt') == p.derive(passphrase, salt) then Ok(entries)
    else Err(CannotOpen)
  }

  /**
   * A box opens to its entries with its own header and vector and a passphrase that derives its
   * key, and with nothing else; bits the magic test does not see are seen by the cipher.
   */
  lemma EditedBlobFails(p: Platform, passphrase: Text, salt: Bytes, iv: Bytes, entries: seq<Entry>,
                        header': Bytes, salt': Bytes, iv': Bytes, other: Text)
    requires Ideal(p) && forall i :: 0 <= i < |entries| ==> entries[i].name != []
    requires |header'| == HEADER_LENGTH && |salt'| == SALT_LENGTH && |iv'| == IV_LENGTH
    requires || Binds(p, p.derive(passphrase, salt), iv, Header(), SealedPayload(p, passphrase, salt, iv, entries))
             || (header' == Header() && iv' == iv && p.derive(other, salt') == p.derive(passphrase, salt))
    ensures var box := SealedPayload(p, passphrase, salt, iv, entries);
            OpenBlob(p, header' + salt' + iv' + box.tag + box.ciphertext, other)
            == Edited(p, passphrase, salt, iv, entries, header', salt', iv', other)
  {
    var box := SealedPayload(p, passphrase, salt, iv, entries);
    BlobParts(header', salt', iv', box.tag, box.ciphertext);
    var blob := header' + salt' + iv' + box.tag + box.ciphertext;
    assert blob[..8] == blob[..9][..8] && blob[8] == blob[..9][8];
    assert box == Sealed(box.tag, box.ciphertext);
    PayloadReadsBack(entries);
  }

  /**
   * A blob opens to its entries under every passphrase that derives its key and, when its box
   * is bound, under no other; provided its payload is within the cap.
   */
  lemma BlobOpens(p: Platform, passphrase: Text, other: Text, salt: Bytes, iv: Bytes, entries: seq<Entry>)
    requires Ideal(p) && |salt| == SALT_LENGTH && |iv| == IV_LENGTH
    requires forall i :: 0 <= i < |entries| ==> entries[i].name != []
    requires || Binds(p, p.derive(passphrase, salt), iv, Header(), SealedPayload(p, passphrase, salt, iv, entries))
             || p.derive(other, salt) == p.derive(passphrase, salt)
    ensures OpenBlob(p, Blob(p, passphrase, salt, iv, entries), other)
         == if |p.stringify(PayloadValue(entries))| > MAX_PAYLOAD_BYTES then Err(TooLarge)
            else if IsBlank(other) then Err(PassphraseBlank)
            else if p.derive(other, salt) == p.derive(passphrase, salt) then Ok(entries)
            else Err(CannotOpen)
  {
    EditedBlobFails(p, passphrase, salt, iv, entries, Header(), salt, iv, other);
    assert Ascii(Header()[..8]) == MAGIC;
  }

  // ---- export ------------------------------------------------------------------------------------

  /** What `list` returns: every name of the table, once. */
  ghost predicate Lists(names: seq<Scalars>, rows: Rows) {
    && (forall i :: 0 <= i < |names| ==> names[i] in rows)
    && (forall name :: name in rows ==> name in names)
    && forall i, j :: 0 <= i < j < |names| ==> names[i] != names[j]
  }

  predicate IsScalars(s: Scalars) {
    forall i :: 0 <= i < |s| ==> s[i] <= 0x10FFFF && !IsHigh(s[i]) && !IsLow(s[i])
  }

  /** The entries of a backup; a row that does not open fails the whole. */
  function Collect(kek: Key, rows: Rows, names: seq<Scalars>): Result<seq<Entry>, Error> {
    if names == [] then Ok([])
    else
      match Collect(kek, rows, names[..|names| - 1])
      case Err(e) => Err(e)
      case Ok(early) =>
        var name := names[|names| - 1];
        if name !in rows then Err(MissingRow)
        else if !(forall i :: 0 <= i < |name| ==> name[i] <= 0x10FFFF) then Err(CorruptRow)
        else
          match OpenSecret(kek, name, rows[name])
          case Err(_) => Err(CorruptRow)
          case Ok(value) => Ok(early + [Entry(Decode(name), value)])
  }

  /** One row that does not open fails the whole backup, so none is left out of it. */
  lemma {:induction false} CollectFailsExactly(kek: Key, rows: Rows, names: seq<Scalars>)
    requires forall i :: 0 <= i < |names| ==> names[i] in rows && IsScalars(names[i])
    ensures Collect(kek, rows, names).Ok?
       <==> forall i :: 0 <= i < |names| ==> OpenSecret(kek, names[i], rows[names[i]]).Ok?
    ensures Collect(kek, rows, names).Err? ==> Collect(kek, rows, names).error == CorruptRow
    decreases |names|
  {
    if names != [] {
      CollectFailsExactly(kek, rows, names[..|names| - 1]);
    }
  }

  function Export(p: Platform, kek: Key, rows: Rows, names: seq<Scalars>, passphrase: Text, salt: Bytes, iv: Bytes):
    Result<Bytes, Error>
  {
    if IsBlank(passphrase) then Err(PassphraseBlank)
    else
      match Collect(kek, rows, names)
      case Err(e) => Err(e)
      case Ok(entries) => Ok(Blob(p, passphrase, salt, iv, entries))
  }

  // ---- import ------------------------------------------------------------------------------------

  /** The refusal of the first entry whose name the table has. */
  function Conflict(kek: Key, rows: Rows, entries: seq<Entry>): Option<Error> {
    if entries == [] then None
    else
      var early := Conflict(kek, rows, entries[..|entries| - 1]);
      var name := Encode(entries[|entries| - 1].name);
      if early.Some? then early
      else if name !in rows then None
      else if OpenSecret(kek, name, rows[name]).Err? then Some(CorruptRow)
      else Some(NameConflict)
  }

  lemma {:induction false} ConflictIsOverlap(kek: Key, rows: Rows, entries: seq<Entry>)
    ensures Conflict(kek, rows, entries).None? <==> forall i :: 0 <= i < |entries| ==> Encode(entries[i].name) !in rows
    decreases |entries|
  {
    if entries != [] {
      ConflictIsOverlap(kek, rows, entries[..|entries| - 1]);
    }
  }

  /** The refusal is about the first entry whose name is taken: a conflict, unless the row there does not open. */
  lemma {:induction false} ConflictIsFirst(kek: Key, rows: Rows, entries: seq<Entry>, i: nat)
    requires i < |entries| && Encode(entries[i].name) in rows
    requires forall j :: 0 <= j < i ==> Encode(entries[j].name) !in rows
    ensures Conflict(kek, rows, entries)
         == if OpenSecret(kek, Encode(entries[i].name), rows[Encode(entries[i].name)]).Ok? then Some(NameConflict)
            else Some(CorruptRow)
    decreases |entries|
  {
    var front := entries[..|entries| - 1];
    if i < |front| {
      ConflictIsFirst(kek, rows, front, i);
    } else {
      ConflictIsOverlap(kek, rows, front);
    }
  }

  /** The table after putting the entries one after the other. */
  function PutAll(kek: Key, rows: Rows, entries: seq<Entry>, deks: nat -> Key): Rows {
    if entries == [] then rows
    else
      var n := |entries| - 1;
      var name := Encode(entries[n].name);
      PutAll(kek, rows, entries[..n], deks)[name := SealSecret(kek, name, entries[n].value, deks(n))]
  }

  datatype Imported = Imported(result: Result<nat, Error>, rows: Rows)

  /** The import, when every write commits. */
  function Import(p: Platform, kek: Key, rows: Rows, bytes: Bytes, passphrase: Text, replace: bool, deks: nat -> Key):
    Imported
  {
    match OpenBlob(p, bytes, passphrase)
    case Err(e) => Imported(Err(e), rows)
    case Ok(entries) =>
      var conflict := if replace then None else Conflict(kek, rows, entries);
      if conflict.Some? then Imported(Err(conflict.value), rows)
      else Imported(Ok(|entries|), PutAll(kek, rows, entries, deks))
  }

  // ---- round trip --------------------------------------------------------------------------------

  lemma {:induction false} EncodeOfDecode(s: Scalars)
    requires IsScalars(s)
    ensures Encode(Decode(s)) == s
  {
    if s != [] {
      EncodeOfDecode(s[1..]);
      EncodeStep(s);
      assert s == [s[0]] + s[1..];
    }
  }

  lemma EncodePair(x: nat, rest: Text)
    requires x < 0x100000
    ensures x / 0x400 < 0x400
    ensures Encode([0xD800 + x / 0x400, 0xDC00 + x % 0x400] + rest) == [0x10000 + x] + Encode(rest)
  {
    var high: CodeUnit, low: CodeUnit := 0xD800 + x / 0x400, 0xDC00 + x % 0x400;
    var text := [high, low] + rest;
    assert IsHigh(text[0]) && IsLow(text[1]) && text[2..] == rest;
  }

  lemma EncodeUnit(u: CodeUnit, rest: Text)
    requires !IsHigh(u) && !IsLow(u)
    ensures Encode([u] + rest) == [u as nat] + Encode(rest)
  {
    assert ([u] + rest)[1..] == rest;
  }

  lemma EncodeStep(s: Scalars)
    requires s != [] && IsScalars(s)
    ensures Encode(Decode(s)) == [s[0]] + Encode(Decode(s[1..]))
  {
    if s[0] >= 0x10000 {
      EncodePair(s[0] - 0x10000, Decode(s[1..]));
    } else {
      EncodeUnit(s[0], Decode(s[1..]));
    }
  }

  /** What storage gave back once, it gives back unchanged. */
  lemma StoredTwice(text: Text)
    ensures Stored(Stored(text)) == Stored(text)
  {
    EncodeOfDecode(Encode(text));
  }

  /** The names and texts of a store in a listing's order. */
  function Backup(written: map<Scalars, Text>, names: seq<Scalars>): (entries: seq<Entry>)
    requires forall i :: 0 <= i < |names| ==> names[i] in written && IsScalars(names[i])
    ensures |entries| == |names|
  {
    seq(|names|, i requires 0 <= i < |names| && names[i] in written && IsScalars(names[i]) =>
          Entry(Decode(names[i]), Stored(written[names[i]])))
  }

  lemma CollectSnoc(kek: Key, rows: Rows, names: seq<Scalars>, entries: seq<Entry>, name: Scalars, value: Text)
    requires Collect(kek, rows, names) == Ok(entries) && name in rows && IsScalars(name)
    requires OpenSecret(kek, name, rows[name]) == Ok(value)
    ensures Collect(kek, rows, names + [name]) == Ok(entries + [Entry(Decode(name), value)])
  {
    assert (names + [name])[..|names|] == names;
  }

  lemma BackupSnoc(written: map<Scalars, Text>, names: seq<Scalars>)
    requires names != [] && forall i :: 0 <= i < |names| ==> names[i] in written && IsScalars(names[i])
    ensures var n := |names| - 1;
            Backup(written, names) == Backup(written, names[..n]) + [Entry(Decode(names[n]), Stored(written[names[n]]))]
  {
  }

  lemma {:induction false} CollectIsBackup(kek: Key, rows: Rows, written: map<Scalars, Text>, names: seq<Scalars>)
    requires AllOpen(kek, rows, written)
    requires forall i :: 0 <= i < |names| ==> names[i] in written && IsScalars(names[i])
    ensures Collect(kek, rows, names) == Ok(Backup(written, names))
    decreases |names|
  {
    if names != [] {
      var front, last := names[..|names| - 1], names[|names| - 1];
      CollectIsBackup(kek, rows, written, front);
      BackupSnoc(written, names);
      CollectSnoc(kek, rows, front, Backup(written, front), last, Stored(written[last]));
      FrontAndLast(names);
    }
  }

  /** The texts of a backup laid over those of a store. */
  function Laid(base: map<Scalars, Text>, written: map<Scalars, Text>, names: seq<Scalars>): map<Scalars, Text>
    requires forall i :: 0 <= i < |names| ==> names[i] in written
  {
    if names == [] then base
    else Laid(base, written, names[..|names| - 1])[names[|names| - 1] := Stored(written[names[|names| - 1]])]
  }

  lemma {:induction false} LaidIs(base: map<Scalars, Text>, written: map<Scalars, Text>, names: seq<Scalars>)
    requires forall i :: 0 <= i < |names| ==> names[i] in written
    ensures forall name :: name in Laid(base, written, names) <==> name in base || name in names
    ensures forall name :: name in names ==> Laid(base, written, names)[name] == Stored(written[name])
    ensures forall name :: name in base && name !in names ==> Laid(base, written, names)[name] == base[name]
    decreases |names|
  {
    if names != [] {
      LaidIs(base, written, names[..|names| - 1]);
      FrontAndLast(names);
    }
  }

  /** Every text of a backup is put under the target's own key, and the others stay. */
  lemma {:induction false} PutAllOpens(kek: Key, rows: Rows, base: map<Scalars, Text>, written: map<Scalars, Text>,
                                       names: seq<Scalars>, deks: nat -> Key)
    requires AllOpen(kek, rows, base)
    requires forall i :: 0 <= i < |names| ==> names[i] in written && IsScalars(names[i])
    ensures AllOpen(kek, PutAll(kek, rows, Backup(written, names), deks), Laid(base, written, names))
    ensures forall name :: name in rows && name !in names ==>
              name in PutAll(kek, rows, Backup(written, names), deks)
              && PutAll(kek, rows, Backup(written, names), deks)[name] == rows[name]
    decreases |names|
  {
    if names != [] {
      var n := |names| - 1;
      PutAllOpens(kek, rows, base, written, names[..n], deks);
      EncodeOfDecode(names[n]);
      var entries := Backup(written, names);
      assert entries[..n] == Backup(written, names[..n]);
      PutOpens(kek, PutAll(kek, rows, entries[..n], deks), Laid(base, written, names[..n]), names[n],
               Stored(written[names[n]]), deks(n));
      FrontAndLast(names);
    }
  }

  lemma {:induction false} DecodeNonEmpty(s: Scalars)
    requires s != [] && IsScalars(s)
    ensures Decode(s) != []
  {
  }

  lemma BackupHasNames(written: map<Scalars, Text>, names: seq<Scalars>)
    requires forall i :: 0 <= i < |names| ==> names[i] in written && IsScalars(names[i]) && names[i] != []
    ensures forall i :: 0 <= i < |names| ==>
              Backup(written, names)[i].name != [] && Encode(Backup(written, names)[i].name) == names[i]
  {
    forall i | 0 <= i < |names|
      ensures Backup(written, names)[i].name != [] && Encode(Backup(written, names)[i].name) == names[i]
    {
      DecodeNonEmpty(names[i]);
      EncodeOfDecode(names[i]);
    }
  }

  /** A store whose every row opens, with names a `put` accepts. */
  ghost predicate Healthy(kek: Key, rows: Rows, written: map<Scalars, Text>) {
    AllOpen(kek, rows, written) && forall name :: name in rows ==> name != [] && IsScalars(name)
  }

  /** Every source secret reads in `rows` as it does in the source; every other row is the target's; nothing else. */
  ghost predicate Restored(sourceKey: Key, source: Rows, targetKey: Key, target: Rows, rows: Rows) {
    && rows.Keys == target.Keys + source.Keys
    && (forall name :: name in source ==>
          OpenSecret(targetKey, name, rows[name]) == OpenSecret(sourceKey, name, source[name]))
    && forall name :: name in target && name !in source ==> rows[name] == target[name]
  }

  lemma OpensAsBefore(sourceKey: Key, source: Rows, texts: map<Scalars, Text>, targetKey: Key, rows: Rows,
                      laid: map<Scalars, Text>, name: Scalars)
    requires AllOpen(sourceKey, source, texts) && AllOpen(targetKey, rows, laid)
    requires name in source && name in laid && laid[name] == Stored(texts[name])
    ensures name in rows && OpenSecret(targetKey, name, rows[name]) == OpenSecret(sourceKey, name, source[name])
  {
    StoredTwice(texts[name]);
  }

  lemma PutAllRestores(sourceKey: Key, source: Rows, texts: map<Scalars, Text>, names: seq<Scalars>,
                       targetKey: Key, target: Rows, base: map<Scalars, Text>, deks: nat -> Key)
    requires Healthy(sourceKey, source, texts) && Lists(names, source) && AllOpen(targetKey, target, base)
    ensures Restored(sourceKey, source, targetKey, target, PutAll(targetKey, target, Backup(texts, names), deks))
  {
    var rows, laid := PutAll(targetKey, target, Backup(texts, names), deks), Laid(base, texts, names);
    PutAllOpens(targetKey, target, base, texts, names, deks);
    LaidIs(base, texts, names);
    forall name | name in source
      ensures name in rows && OpenSecret(targetKey, name, rows[name]) == OpenSecret(sourceKey, name, source[name])
    {
      OpensAsBefore(sourceKey, source, texts, targetKey, rows, laid, name);
    }
    SameNames(source, target, names, base, laid);
  }

  lemma SameNames(source: Rows, target: Rows, names: seq<Scalars>, base: map<Scalars, Text>, laid: map<Scalars, Text>)
    requires Lists(names, source) && target.Keys == base.Keys
    requires forall name :: name in laid <==> name in base || name in names
    ensures laid.Keys == target.Keys + source.Keys
  {
  }

  lemma NamesOverlap(written: map<Scalars, Text>, names: seq<Scalars>, kek: Key, target: Rows)
    requires forall i :: 0 <= i < |names| ==> names[i] in written && IsScalars(names[i]) && names[i] != []
    requires forall i :: 0 <= i < |names| ==> names[i] !in target
    ensures Conflict(kek, target, Backup(written, names)).None?
  {
    BackupHasNames(written, names);
    ConflictIsOverlap(kek, target, Backup(written, names));
  }

  /**
   * What one store exports, another imports under any root key: with names disjoint from the
   * target's, or with `replace`, every exported secret then reads as it did in the source, every
   * other one is the row it was, and there is nothing else.
   */
  lemma ExportImportRoundTrip(p: Platform, sourceKey: Key, source: Rows, texts: map<Scalars, Text>, names: seq<Scalars>,
                              targetKey: Key, target: Rows, base: map<Scalars, Text>, passphrase: Text, salt: Bytes,
                              iv: Bytes, replace: bool, deks: nat -> Key)
    requires Ideal(p) && |salt| == SALT_LENGTH && |iv| == IV_LENGTH && !IsBlank(passphrase)
    requires Healthy(sourceKey, source, texts) && Lists(names, source) && AllOpen(targetKey, target, base)
    requires replace || source.Keys !! target.Keys
    requires |p.stringify(PayloadValue(Backup(texts, names)))| <= MAX_PAYLOAD_BYTES
    ensures var exported := Export(p, sourceKey, source, names, passphrase, salt, iv);
            && exported.Ok?
            && var imported := Import(p, targetKey, target, exported.value, passphrase, replace, deks);
               imported.result == Ok(|names|) && Restored(sourceKey, source, targetKey, target, imported.rows)
  {
    var entries := Backup(texts, names);
    CollectIsBackup(sourceKey, source, texts, names);
    BackupHasNames(texts, names);
    BlobOpens(p, passphrase, passphrase, salt, iv, entries);
    if !replace {
      NamesOverlap(texts, names, targetKey, target);
    }
    PutAllRestores(sourceKey, source, texts, names, targetKey, target, base, deks);
  }

  // ---- the store, as export and import see it --------------------------------------------------------

  class Vault {
    const kek: Key
    var rows: Rows

    constructor (kek: Key, rows: Rows)
      ensures this.kek == kek && this.rows == rows
    {
      this.kek, this.rows := kek, rows;
    }

    method Find(name: Text) returns (r: Result<Option<Text>, Error>)
      ensures r == if Encode(name) !in rows then Ok(None)
                   else match OpenSecret(kek, Encode(name), rows[Encode(name)])
                        case Ok(text) => Ok(Some(text))
                        case Err(_) => Err(CorruptRow)
    {
      if Encode(name) !in rows {
        return Ok(None);
      }
      var unsealed := OpenSecret(kek, Encode(name), rows[Encode(name)]);
      r := if unsealed.Ok? then Ok(Some(unsealed.value)) else Err(CorruptRow);
    }

    method PutSecret(name: Text, value: Text, dek: Key, commits: bool) returns (ok: bool)
      modifies this`rows
      ensures ok == commits
      ensures rows == if commits then old(rows)[Encode(name) := SealSecret(kek, Encode(name), value, dek)]
                      else old(rows)
    {
      if commits {
        rows := rows[Encode(name) := SealSecret(kek, Encode(name), value, dek)];
      }
      ok := commits;
    }

    /** Check every conflict before the first write. */
    method FindConflict(entries: seq<Entry>) returns (r: Option<Error>)
      ensures r == Conflict(kek, rows, entries)
    {
      for i := 0 to |entries|
        invariant Conflict(kek, rows, entries[..i]).None?
      {
        assert entries[..i + 1][..i] == entries[..i];
        var found := Find(entries[i].name);
        if found.Err? {
          ConflictStays(kek, rows, entries, i + 1);
          return Some(found.error);
        }
        if found.value.Some? {
          ConflictStays(kek, rows, entries, i + 1);
          return Some(NameConflict);
        }
      }
      assert entries[..|entries|] == entries;
      return None;
    }

    /**
     * A refusal leaves the table as it was. Only a write that fails stops in between, and then
     * exactly the entries in front of it are stored.
     */
    method ImportSecrets(p: Platform, bytes: Bytes, passphrase: Text, replace: bool, deks: nat -> Key,
                         commits: nat -> bool)
      returns (r: Result<nat, Error>)
      modifies this`rows
      ensures var all := Import(p, kek, old(rows), bytes, passphrase, replace, deks);
              && (r != Err(WriteFailed) ==> r == all.result && rows == all.rows)
              && (r.Err? && r != Err(WriteFailed) ==> rows == old(rows))
              && (r == Err(WriteFailed) ==>
                    && all.result.Ok?
                    && var entries := OpenBlob(p, bytes, passphrase).value;
                       exists n :: 0 <= n < |entries| && !commits(n) && (forall i :: 0 <= i < n ==> commits(i))
                                   && rows == PutAll(kek, old(rows), entries[..n], deks))
              && ((forall i :: 0 <= i ==> commits(i)) ==> r != Err(WriteFailed))
    {
      var unsealed := OpenBlob(p, bytes, passphrase);
      if unsealed.Err? {
        OpenBlobNeverWrites(p, bytes, passphrase);
        return Err(unsealed.error);
      }
      var entries := unsealed.value;
      if !replace {
        var conflict := FindConflict(entries);
        if conflict.Some? {
          ConflictErrors(kek, rows, entries);
          return Err(conflict.value);
        }
      }
      r := WriteAll(entries, deks, commits);
    }

    method WriteAll(entries: seq<Entry>, deks: nat -> Key, commits: nat -> bool) returns (r: Result<nat, Error>)
      modifies this`rows
      ensures r.Ok? ==> r.value == |entries| && rows == PutAll(kek, old(rows), entries, deks)
      ensures r.Err? ==>
                && r.error == WriteFailed
                && exists n :: 0 <= n < |entries| && !commits(n) && (forall i :: 0 <= i < n ==> commits(i))
                               && rows == PutAll(kek, old(rows), entries[..n], deks)
    {
      for i := 0 to |entries|
        invariant rows == PutAll(kek, old(rows), entries[..i], deks) && forall j :: 0 <= j < i ==> commits(j)
      {
        assert entries[..i + 1][..i] == entries[..i];
        var ok := PutSecret(entries[i].name, entries[i].value, deks(i), commits(i));
        if !ok {
          return Err(WriteFailed);
        }
      }
      assert entries[..|entries|] == entries;
      return Ok(|entries|);
    }

    /** `names` is the table's listing. */
    method ExportSecrets(p: Platform, names: seq<Scalars>, passphrase: Text, salt: Bytes, iv: Bytes)
      returns (r: Result<Bytes, Error>)
      requires Lists(names, rows) && forall i :: 0 <= i < |names| ==> IsScalars(names[i])
      ensures r == Export(p, kek, rows, names, passphrase, salt, iv)
    {
      if IsBlank(passphrase) {
        return Err(PassphraseBlank);
      }
      var entries: seq<Entry> := [];
      for i := 0 to |names|
        invariant Collect(kek, rows, names[..i]) == Ok(entries)
      {
        assert names[..i + 1][..i] == names[..i];
        var value := OpenSecret(kek, names[i], rows[names[i]]);
        if value.Err? {
          CollectFails(kek, rows, names, i + 1);
          return Err(CorruptRow);
        }
        entries := entries + [Entry(Decode(names[i]), value.value)];
      }
      assert names[..|names|] == names;
      return Ok(Blob(p, passphrase, salt, iv, entries));
    }
  }

  lemma {:induction false} ConflictStays(kek: Key, rows: Rows, entries: seq<Entry>, n: nat)
    requires n <= |entries| && Conflict(kek, rows, entries[..n]).Some?
    ensures Conflict(kek, rows, entries) == Conflict(kek, rows, entries[..n])
    decreases |entries|
  {
    if n == |entries| {
      assert entries[..n] == entries;
    } else {
      assert entries[..|entries| - 1][..n] == entries[..n];
      ConflictStays(kek, rows, entries[..|entries| - 1], n);
    }
  }

  lemma {:induction false} ConflictErrors(kek: Key, rows: Rows, entries: seq<Entry>)
    ensures Conflict(kek, rows, entries) != Some(WriteFailed)
    decreases |entries|
  {
    if entries != [] {
      ConflictErrors(kek, rows, entries[..|entries| - 1]);
    }
  }

  lemma OpenBlobNeverWrites(p: Platform, bytes: Bytes, passphrase: Text)
    ensures OpenBlob(p, bytes, passphrase) != Err(WriteFailed)
  {
  }

  lemma {:induction false} CollectFails(kek: Key, rows: Rows, names: seq<Scalars>, n: nat)
    requires n <= |names| && Collect(kek, rows, names[..n]).Err?
    ensures Collect(kek, rows, names) == Collect(kek, rows, names[..n])
    decreases |names|
  {
    if n == |names| {
      assert names[..n] == names;
    } else {
      assert names[..|names| - 1][..n] == names[..n];
      CollectFails(kek, rows, names[..|names| - 1], n);
    }
  }
}

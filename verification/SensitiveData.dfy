/** Encrypting, decrypting and masking the sensitive parts of JSON values. */
module SensitiveData {
  import opened Wrappers
  import opened JsonTree

  const MARKER := "__encrypted_value__"
  const MASK := "***"
  const SECRET_TEXT_PREFIX := "enc:v1:"

  const SENSITIVE_KEYS := [
    "authorization", "cookie", "password", "passwd", "secret", "token",
    "api_key", "apikey", "access_key", "client_secret"
  ]

  /** A cipher over JSON values; `open` fails on text that is no token. */
  datatype Cipher = Cipher(seal: Json -> string, open: string -> Option<Json>) {

    /** Opening undoes sealing, and a token is longer than the text it hides. */
    ghost predicate IsSound() {
      && (forall v :: open(seal(v)) == Some(v))
      && (forall t, v :: open(t) == Some(v) ==> TextSize(v) < |t|)
    }
  }

  function LowerChar(c: char): char {
    if 'A' <= c <= 'Z' then c - 'A' + 'a' else if c == '-' then '_' else c
  }

  function Normalized(key: string): string {
    seq(|key|, i requires 0 <= i < |key| => LowerChar(key[i]))
  }

  predicate Contains(s: string, part: string) {
    part <= s || (s != "" && Contains(s[1..], part))
  }

  predicate IsSensitiveKey(key: string) {
    exists i :: 0 <= i < |SENSITIVE_KEYS| && Contains(Normalized(key), SENSITIVE_KEYS[i])
  }

  // ---------------------------------------------------------------- which keys are sensitive

  /** A character of a listed name, in either case; an underscore may be a hyphen. */
  predicate Spells(c: char, n: char) {
    c == n || (n == '_' && c == '-') || ('a' <= n <= 'z' && c == n - 'a' + 'A')
  }

  predicate SpelledAt(key: string, name: string, at: nat) {
    at + |name| <= |key| && forall i :: 0 <= i < |name| ==> Spells(key[at + i], name[i])
  }

  predicate IsListed(name: string) {
    name in {"authorization", "cookie", "password", "passwd", "secret", "token", "api_key", "apikey", "access_key", "client_secret"}
  }

  lemma {:induction false} ContainsExactly(s: string, part: string)
    ensures Contains(s, part) <==> exists k: nat :: HasAt(s, part, k)
  {
    if part <= s {
      assert HasAt(s, part, 0);
    }
    if s != "" {
      ContainsExactly(s[1..], part);
      if k: nat :| HasAt(s[1..], part, k) {
        assert HasAt(s, part, k + 1);
      }
      if k: nat :| HasAt(s, part, k) && k > 0 {
        assert HasAt(s[1..], part, k - 1);
      }
    }
  }

  predicate HasAt(s: string, part: string, k: nat) {
    k + |part| <= |s| && forall i :: 0 <= i < |part| ==> s[k + i] == part[i]
  }

  lemma FoldedAt(key: string, name: string, k: nat)
    requires forall i :: 0 <= i < |name| ==> name[i] == '_' || 'a' <= name[i] <= 'z'
    ensures HasAt(Normalized(key), name, k) <==> SpelledAt(key, name, k)
  {
  }

  /** A key is sensitive exactly when some listed name is spelled somewhere in it, in any case and with hyphens for underscores. */
  lemma SensitiveExactlyWhenSpelled(key: string)
    ensures IsSensitiveKey(key) <==> exists name, at: nat :: IsListed(name) && SpelledAt(key, name, at)
  {
    forall i | 0 <= i < |SENSITIVE_KEYS|
      ensures Contains(Normalized(key), SENSITIVE_KEYS[i]) <==> exists at: nat :: SpelledAt(key, SENSITIVE_KEYS[i], at)
    {
      NameIsSpelled(key, SENSITIVE_KEYS[i]);
    }
    NamesAreListed();
  }

  lemma NameIsSpelled(key: string, name: string)
    requires forall i :: 0 <= i < |name| ==> name[i] == '_' || 'a' <= name[i] <= 'z'
    ensures Contains(Normalized(key), name) <==> exists at: nat :: SpelledAt(key, name, at)
  {
    ContainsExactly(Normalized(key), name);
    forall at: nat ensures HasAt(Normalized(key), name, at) <==> SpelledAt(key, name, at) {
      FoldedAt(key, name, at);
    }
  }

  lemma NamesAreListed()
    ensures forall name :: IsListed(name) <==> exists i :: 0 <= i < |SENSITIVE_KEYS| && SENSITIVE_KEYS[i] == name
  {
    forall name | IsListed(name) ensures exists i :: 0 <= i < |SENSITIVE_KEYS| && SENSITIVE_KEYS[i] == name {
      assert name in SENSITIVE_KEYS;
    }
  }

  /** A dictionary with the marker as its only key. */
  predicate IsSealed(entries: Entries) {
    entries.Entry? && entries.key == MARKER && entries.others.NoEntry?
  }

  function Sealed(c: Cipher, v: Json): Json {
    Dict(Entry(MARKER, Text(c.seal(v)), NoEntry))
  }

  // ---------------------------------------------------------------- the three transforms

  function Encrypt(c: Cipher, v: Json): Json {
    match v
    case Dict(entries) => Dict(EncryptEntries(c, entries))
    case List(items) => List(EncryptItems(c, items))
    case _ => v
  }

  function EncryptEntries(c: Cipher, entries: Entries): Entries {
    match entries
    case NoEntry => NoEntry
    case Entry(key, value, others) =>
      Entry(key, if IsSensitiveKey(key) then Sealed(c, value) else Encrypt(c, value), EncryptEntries(c, others))
  }

  function EncryptItems(c: Cipher, items: Items): Items {
    match items
    case NoItem => NoItem
    case Item(head, tail) => Item(Encrypt(c, head), EncryptItems(c, tail))
  }

  /** None stands for a raised exception. */
  function Decrypt(c: Cipher, v: Json): Option<Json> {
    match v
    case Dict(entries) =>
      if IsSealed(entries) then
        (if entries.value.Text? then c.open(entries.value.s) else None)
      else
        (match DecryptEntries(c, entries)
         case None => None
         case Some(e) => Some(Dict(e)))
    case List(items) =>
      (match DecryptItems(c, items)
       case None => None
       case Some(i) => Some(List(i)))
    case _ => Some(v)
  }

  function DecryptEntries(c: Cipher, entries: Entries): Option<Entries> {
    match entries
    case NoEntry => Some(NoEntry)
    case Entry(key, value, others) =>
      match (Decrypt(c, value), DecryptEntries(c, others))
      case (Some(v), Some(e)) => Some(Entry(key, v, e))
      case _ => None
  }

  function DecryptItems(c: Cipher, items: Items): Option<Items> {
    match items
    case NoItem => Some(NoItem)
    case Item(head, tail) =>
      match (Decrypt(c, head), DecryptItems(c, tail))
      case (Some(v), Some(i)) => Some(Item(v, i))
      case _ => None
  }

  function Mask(v: Json): Json {
    match v
    case Dict(entries) => if IsSealed(entries) then Text(MASK) else Dict(MaskEntries(entries))
    case List(items) => List(MaskItems(items))
    case _ => v
  }

  function MaskEntries(entries: Entries): Entries {
    match entries
    case NoEntry => NoEntry
    case Entry(key, value, others) =>
      Entry(key, if IsSensitiveKey(key) then Text(MASK) else Mask(value), MaskEntries(others))
  }

  function MaskItems(items: Items): Items {
    match items
    case NoItem => NoItem
    case Item(head, tail) => Item(Mask(head), MaskItems(tail))
  }

  // ---------------------------------------------------------------- masking

  /** Nothing is left to mask: sensitive keys hold the mask, and nothing is sealed. */
  predicate Masked(v: Json) {
    match v
    case Dict(entries) => !IsSealed(entries) && MaskedEntries(entries)
    case List(items) => MaskedItems(items)
    case _ => true
  }

  predicate MaskedEntries(entries: Entries) {
    match entries
    case NoEntry => true
    case Entry(key, value, others) =>
      (if IsSensitiveKey(key) then value == Text(MASK) else Masked(value)) && MaskedEntries(others)
  }

  predicate MaskedItems(items: Items) {
    match items
    case NoItem => true
    case Item(head, tail) => Masked(head) && MaskedItems(tail)
  }

  lemma {:induction false} MaskMasks(v: Json)
    ensures Masked(Mask(v))
  {
    match v
    case Dict(entries) => MaskMasksEntries(entries);
    case List(items) => MaskMasksItems(items);
    case _ =>
  }

  lemma {:induction false} MaskMasksEntries(entries: Entries)
    ensures MaskedEntries(MaskEntries(entries))
    ensures IsSealed(MaskEntries(entries)) <==> IsSealed(entries)
  {
    if entries.Entry? {
      MaskMasks(entries.value);
      MaskMasksEntries(entries.others);
    }
  }

  lemma {:induction false} MaskMasksItems(items: Items)
    ensures MaskedItems(MaskItems(items))
  {
    if items.Item? {
      MaskMasks(items.head);
      MaskMasksItems(items.tail);
    }
  }

  /** Masking leaves a value alone exactly when nothing in it is left to mask. */
  lemma {:induction false} MaskFixesExactlyMasked(v: Json)
    ensures Mask(v) == v <==> Masked(v)
  {
    match v
    case Dict(entries) => MaskFixesEntries(entries);
    case List(items) => MaskFixesItems(items);
    case _ =>
  }

  lemma {:induction false} MaskFixesEntries(entries: Entries)
    ensures MaskEntries(entries) == entries <==> MaskedEntries(entries)
  {
    if entries.Entry? {
      MaskFixesExactlyMasked(entries.value);
      MaskFixesEntries(entries.others);
    }
  }

  lemma {:induction false} MaskFixesItems(items: Items)
    ensures MaskItems(items) == items <==> MaskedItems(items)
  {
    if items.Item? {
      MaskFixesExactlyMasked(items.head);
      MaskFixesItems(items.tail);
    }
  }

  lemma MaskIsIdempotent(v: Json)
    ensures Mask(Mask(v)) == Mask(v)
  {
    MaskMasks(v);
    MaskFixesExactlyMasked(Mask(v));
  }

  /** Masking an encrypted value shows neither more nor less than masking the value. */
  lemma {:induction false} MaskOfEncrypted(c: Cipher, v: Json)
    ensures Mask(Encrypt(c, v)) == Mask(v)
  {
    match v
    case Dict(entries) => MaskOfEncryptedEntries(c, entries);
    case List(items) => MaskOfEncryptedItems(c, items);
    case _ =>
  }

  lemma {:induction false} MaskOfEncryptedEntries(c: Cipher, entries: Entries)
    ensures MaskEntries(EncryptEntries(c, entries)) == MaskEntries(entries)
    ensures IsSealed(EncryptEntries(c, entries)) <==> IsSealed(entries)
  {
    if entries.Entry? {
      MaskOfEncrypted(c, entries.value);
      MaskOfEncryptedEntries(c, entries.others);
    }
  }

  lemma {:induction false} MaskOfEncryptedItems(c: Cipher, items: Items)
    ensures MaskItems(EncryptItems(c, items)) == MaskItems(items)
  {
    if items.Item? {
      MaskOfEncrypted(c, items.head);
      MaskOfEncryptedItems(c, items.tail);
    }
  }

  /** Two values that differ at most under sensitive keys and inside sealed values. */
  predicate SameOutsideSecrets(v: Json, w: Json) {
    match (v, w)
    case (Dict(a), Dict(b)) => (IsSealed(a) && IsSealed(b)) || SameEntriesOutsideSecrets(a, b)
    case (List(a), List(b)) => SameItemsOutsideSecrets(a, b)
    case _ => v == w
  }

  predicate SameEntriesOutsideSecrets(a: Entries, b: Entries) {
    match (a, b)
    case (NoEntry, NoEntry) => true
    case (Entry(k, v, e), Entry(k', v', e')) =>
      k == k' && (IsSensitiveKey(k) || SameOutsideSecrets(v, v')) && SameEntriesOutsideSecrets(e, e')
    case _ => false
  }

  predicate SameItemsOutsideSecrets(a: Items, b: Items) {
    match (a, b)
    case (NoItem, NoItem) => true
    case (Item(v, i), Item(v', i')) => SameOutsideSecrets(v, v') && SameItemsOutsideSecrets(i, i')
    case _ => false
  }

  /** What is masked tells nothing about the secrets. */
  lemma {:induction false} MaskHidesSecrets(v: Json, w: Json)
    requires SameOutsideSecrets(v, w)
    ensures Mask(v) == Mask(w)
  {
    match (v, w)
    case (Dict(a), Dict(b)) =>
      if !(IsSealed(a) && IsSealed(b)) {
        MaskHidesSecretEntries(a, b);
      }
    case (List(a), List(b)) => MaskHidesSecretItems(a, b);
    case _ =>
  }

  lemma {:induction false} MaskHidesSecretEntries(a: Entries, b: Entries)
    requires SameEntriesOutsideSecrets(a, b)
    ensures MaskEntries(a) == MaskEntries(b)
    ensures IsSealed(a) <==> IsSealed(b)
  {
    if a.Entry? {
      if !IsSensitiveKey(a.key) {
        MaskHidesSecrets(a.value, b.value);
      }
      MaskHidesSecretEntries(a.others, b.others);
    }
  }

  lemma {:induction false} MaskHidesSecretItems(a: Items, b: Items)
    requires SameItemsOutsideSecrets(a, b)
    ensures MaskItems(a) == MaskItems(b)
  {
    if a.Item? {
      MaskHidesSecrets(a.head, b.head);
      MaskHidesSecretItems(a.tail, b.tail);
    }
  }

  /** Two values that differ at most under sensitive keys. */
  predicate SameUnderOtherKeys(v: Json, w: Json) {
    match (v, w)
    case (Dict(a), Dict(b)) => SameEntriesUnderOtherKeys(a, b)
    case (List(a), List(b)) => SameItemsUnderOtherKeys(a, b)
    case _ => v == w
  }

  predicate SameEntriesUnderOtherKeys(a: Entries, b: Entries) {
    match (a, b)
    case (NoEntry, NoEntry) => true
    case (Entry(k, v, e), Entry(k', v', e')) =>
      k == k' && (IsSensitiveKey(k) || SameUnderOtherKeys(v, v')) && SameEntriesUnderOtherKeys(e, e')
    case _ => false
  }

  predicate SameItemsUnderOtherKeys(a: Items, b: Items) {
    match (a, b)
    case (NoItem, NoItem) => true
    case (Item(v, i), Item(v', i')) => SameUnderOtherKeys(v, v') && SameItemsUnderOtherKeys(i, i')
    case _ => false
  }

  /** What is encrypted tells about the secrets only what the cipher tells: nothing, if all its tokens are alike. */
  lemma {:induction false} EncryptHidesSecrets(c: Cipher, v: Json, w: Json)
    requires SameUnderOtherKeys(v, w) && forall a, b :: c.seal(a) == c.seal(b)
    ensures Encrypt(c, v) == Encrypt(c, w)
  {
    match (v, w)
    case (Dict(a), Dict(b)) => EncryptHidesSecretEntries(c, a, b);
    case (List(a), List(b)) => EncryptHidesSecretItems(c, a, b);
    case _ =>
  }

  lemma {:induction false} EncryptHidesSecretEntries(c: Cipher, a: Entries, b: Entries)
    requires SameEntriesUnderOtherKeys(a, b) && forall x, y :: c.seal(x) == c.seal(y)
    ensures EncryptEntries(c, a) == EncryptEntries(c, b)
  {
    if a.Entry? {
      if IsSensitiveKey(a.key) {
        assert c.seal(a.value) == c.seal(b.value);
      } else {
        EncryptHidesSecrets(c, a.value, b.value);
      }
      EncryptHidesSecretEntries(c, a.others, b.others);
    }
  }

  lemma {:induction false} EncryptHidesSecretItems(c: Cipher, a: Items, b: Items)
    requires SameItemsUnderOtherKeys(a, b) && forall x, y :: c.seal(x) == c.seal(y)
    ensures EncryptItems(c, a) == EncryptItems(c, b)
  {
    if a.Item? {
      EncryptHidesSecrets(c, a.head, b.head);
      EncryptHidesSecretItems(c, a.tail, b.tail);
    }
  }

  // ---------------------------------------------------------------- encrypting and decrypting

  /** No dictionary outside the sensitive parts looks like a sealed value. */
  predicate NoBareMarker(v: Json) {
    match v
    case Dict(entries) => !IsSealed(entries) && NoBareMarkerInEntries(entries)
    case List(items) => NoBareMarkerInItems(items)
    case _ => true
  }

  predicate NoBareMarkerInEntries(entries: Entries) {
    match entries
    case NoEntry => true
    case Entry(key, value, others) =>
      (IsSensitiveKey(key) || NoBareMarker(value)) && NoBareMarkerInEntries(others)
  }

  predicate NoBareMarkerInItems(items: Items) {
    match items
    case NoItem => true
    case Item(head, tail) => NoBareMarker(head) && NoBareMarkerInItems(tail)
  }

  lemma {:induction false} ForeignLetter(s: string, part: string, k: nat)
    requires k < |part| && part[k] !in s
    ensures !Contains(s, part)
  {
    if s != "" && !(part <= s) {
      ForeignLetter(s[1..], part, k);
    }
  }

  /** A key is not sensitive if every sensitive name has a letter, here at `where[i]`, that the key does not have. */
  lemma NotSensitiveBy(key: string, where: seq<nat>)
    requires |where| == |SENSITIVE_KEYS|
    requires forall i :: 0 <= i < |where| ==> where[i] < |SENSITIVE_KEYS[i]| && SENSITIVE_KEYS[i][where[i]] !in Normalized(key)
    ensures !IsSensitiveKey(key)
  {
    forall i | 0 <= i < |SENSITIVE_KEYS| ensures !Contains(Normalized(key), SENSITIVE_KEYS[i]) {
      ForeignLetter(Normalized(key), SENSITIVE_KEYS[i], where[i]);
    }
  }

  lemma MarkerIsNotSensitive(key: string)
    requires key == MARKER
    ensures !IsSensitiveKey(key)
  {
    assert Normalized(key) == key;
    NotSensitiveBy(key, [4, 1, 2, 2, 0, 1, 2, 2, 4, 7]);
  }

  /** Decrypting what was encrypted gives the value back exactly when nothing outside its secrets looks sealed. */
  lemma {:induction false} DecryptUndoesEncrypt(c: Cipher, v: Json)
    requires c.IsSound()
    ensures Decrypt(c, Encrypt(c, v)) == Some(v) <==> NoBareMarker(v)
  {
    match v
    case Dict(entries) =>
      DecryptUndoesEncryptEntries(c, entries);
      if IsSealed(entries) {
        BareMarkerIsLost(c, entries);
      }
    case List(items) => DecryptUndoesEncryptItems(c, items);
    case _ =>
  }

  lemma EncryptedBareMarker(c: Cipher, entries: Entries)
    requires IsSealed(entries) && !IsSensitiveKey(entries.key)
    ensures Encrypt(c, Dict(entries)) == Dict(Entry(entries.key, Encrypt(c, entries.value), NoEntry))
    ensures entries.value.Text? ==> TextSize(Dict(entries)) >= |entries.value.s|
  {
    assert EncryptEntries(c, NoEntry) == NoEntry;
    assert TextSize(Dict(entries)) == EntriesTextSize(entries) >= TextSize(entries.value);
  }

  lemma BareMarkerIsLost(c: Cipher, entries: Entries)
    requires c.IsSound() && IsSealed(entries)
    ensures Decrypt(c, Encrypt(c, Dict(entries))) != Some(Dict(entries))
  {
    MarkerIsNotSensitive(entries.key);
    EncryptedBareMarker(c, entries);
  }

  lemma {:induction false} DecryptUndoesEncryptEntries(c: Cipher, entries: Entries)
    requires c.IsSound()
    ensures DecryptEntries(c, EncryptEntries(c, entries)) == Some(entries) <==> NoBareMarkerInEntries(entries)
    ensures IsSealed(EncryptEntries(c, entries)) <==> IsSealed(entries)
  {
    if entries.Entry? {
      DecryptUndoesEncrypt(c, entries.value);
      DecryptUndoesEncryptEntries(c, entries.others);
    }
  }

  lemma {:induction false} DecryptUndoesEncryptItems(c: Cipher, items: Items)
    requires c.IsSound()
    ensures DecryptItems(c, EncryptItems(c, items)) == Some(items) <==> NoBareMarkerInItems(items)
  {
    if items.Item? {
      DecryptUndoesEncrypt(c, items.head);
      DecryptUndoesEncryptItems(c, items.tail);
    }
  }

  // ---------------------------------------------------------------- secret text

  function ProtectSecretText(c: Cipher, value: string): string {
    if SECRET_TEXT_PREFIX <= value then value else SECRET_TEXT_PREFIX + c.seal(Text(value))
  }

  /** `str` of the opened token; what `str` makes of anything but text is left to `show`. */
  function RevealSecretText(c: Cipher, show: Json -> string, value: string): Option<string> {
    if !(SECRET_TEXT_PREFIX <= value) then Some(value)
    else
      match c.open(value[|SECRET_TEXT_PREFIX|..])
      case None => None
      case Some(v) => Some(if v.Text? then v.s else show(v))
  }

  /** What `str` makes of a value that is not text never looks protected: it starts with a bracket, a digit, a sign or a name. */
  ghost predicate IsStr(show: Json -> string) {
    forall v: Json :: !v.Text? ==> !(SECRET_TEXT_PREFIX <= show(v))
  }

  /** Text comes back from protection exactly when it did not look protected before. */
  lemma RevealUndoesProtect(c: Cipher, show: Json -> string, value: string)
    requires c.IsSound() && IsStr(show)
    ensures RevealSecretText(c, show, ProtectSecretText(c, value)) == Some(value) <==> !(SECRET_TEXT_PREFIX <= value)
  {
    if !(SECRET_TEXT_PREFIX <= value) {
      var sealed := c.seal(Text(value));
      assert (SECRET_TEXT_PREFIX + sealed)[|SECRET_TEXT_PREFIX|..] == sealed;
      assert c.open(sealed) == Some(Text(value));
    } else {
      var token := value[|SECRET_TEXT_PREFIX|..];
      assert c.open(token).Some? ==> TextSize(c.open(token).value) < |token|;
      assert c.open(token).Some? && !c.open(token).value.Text? ==> show(c.open(token).value) != value;
    }
  }

  lemma ProtectIsIdempotent(c: Cipher, value: string)
    ensures ProtectSecretText(c, ProtectSecretText(c, value)) == ProtectSecretText(c, value)
  {
    assert SECRET_TEXT_PREFIX <= ProtectSecretText(c, value);
  }
}

/** How the Redis listener coordinator spells keys and cancel payloads
    (pyroflow/listener_coordinator/redis_listener_coordinator.py). */
module KeyCodec {
  import opened Wrappers
  import opened ListenerKeys
  import opened Texts

  datatype Section = Registry | Lock

  function SectionText(section: Section): string {
    match section
    case Registry => "registry"
    case Lock => "lock"
  }

  function ComponentText(c: Option<int>): string {
    if c.Some? then IntText(c.value) else "_"
  }

  function ComponentTexts(key: ListenerKey): seq<string> {
    [ComponentText(Some(key.chatId)), ComponentText(key.userId), ComponentText(key.messageId)]
  }

  /** `_pack_key` */
  function PackKey(updateType: string, key: ListenerKey, section: Section): string {
    "listen" + [SEP] + SectionText(section) + [SEP] + updateType + [SEP] + Join(ComponentTexts(key))
  }

  datatype DecodeError = BadInteger | BadArity

  function ParseComponent(s: string): Result<Option<int>, DecodeError> {
    if s == "_" then Ok(None)
    else match ParseInt(s)
      case None => Err(BadInteger)
      case Some(i) => Ok(Some(i))
  }

  function ParseComponents(texts: seq<string>): Result<seq<Option<int>>, DecodeError> {
    if |texts| == 0 then Ok([])
    else
      match ParseComponent(texts[0])
      case Err(e) => Err(e)
      case Ok(c) =>
        match ParseComponents(texts[1..])
        case Err(e) => Err(e)
        case Ok(cs) => Ok([c] + cs)
  }

  /** `ListenerKey(*values)`: one to three components, the chat among them. */
  function KeyOf(values: seq<Option<int>>): Result<ListenerKey, DecodeError> {
    if |values| == 0 || |values| > 3 || values[0].None? then Err(BadArity)
    else Ok(ListenerKey(values[0].value,
                        if |values| > 1 then values[1] else None,
                        if |values| > 2 then values[2] else None))
  }

  /** `_unpack_key` */
  function UnpackKey(packed: string): Result<ListenerKey, DecodeError> {
    var fields := Split(packed);
    match ParseComponents(if |fields| >= 3 then fields[3..] else [])
    case Err(e) => Err(e)
    case Ok(values) => KeyOf(values)
  }

  /** The message `cancel` publishes. */
  function Payload(packed: string, token: string): string {
    packed + [SEP] + token
  }

  /** What the signal loop makes of a message: ignored, or a key (if it decodes) and a token. */
  function ReadPayload(data: string): Option<(Result<ListenerKey, DecodeError>, string)> {
    match RPartition(data)
    case None => None
    case Some(parts) => if |parts.0| == 0 then None else Some((UnpackKey(parts.0), parts.1))
  }

  // ---------------------------------------------------------------- round trips

  lemma ParseComponentText(c: Option<int>)
    ensures ParseComponent(ComponentText(c)) == Ok(c) && SepFree(ComponentText(c))
  {
    if c.Some? { ParseIntText(c.value); }
  }

  lemma ParseCons(text: string, texts: seq<string>, c: Option<int>, cs: seq<Option<int>>)
    requires ParseComponent(text) == Ok(c) && ParseComponents(texts) == Ok(cs)
    ensures ParseComponents([text] + texts) == Ok([c] + cs)
  {
    assert ([text] + texts)[1..] == texts;
  }

  lemma ParsedComponents(key: ListenerKey)
    ensures ParseComponents(ComponentTexts(key)) == Ok(ToTuple(key))
    ensures Split(Join(ComponentTexts(key))) == ComponentTexts(key)
  {
    var texts := ComponentTexts(key);
    ParseComponentText(Some(key.chatId));
    ParseComponentText(key.userId);
    ParseComponentText(key.messageId);
    SplitJoin(texts);
    ParseCons(texts[2], [], key.messageId, []);
    ParseCons(texts[1], [texts[2]] + [], key.userId, [key.messageId] + []);
    ParseCons(texts[0], [texts[1]] + ([texts[2]] + []), Some(key.chatId), [key.userId] + ([key.messageId] + []));
    assert [texts[0]] + ([texts[1]] + ([texts[2]] + [])) == texts;
    assert [Some(key.chatId)] + ([key.userId] + ([key.messageId] + [])) == ToTuple(key);
  }

  lemma SplitPacked(updateType: string, key: ListenerKey, section: Section)
    ensures Split(PackKey(updateType, key, section))
            == ["listen", SectionText(section)] + Split(updateType) + ComponentTexts(key)
  {
    hide Split, Join, ComponentTexts;
    ParsedComponents(key);
    SplitThree("listen", SectionText(section), updateType, Join(ComponentTexts(key)));
    SplitWord("listen");
    SplitWord(SectionText(section));
  }

  /** A key as it is spelt: the namespace, the section, the type, then chat, user and message, an underscore
      standing for one that is absent. */
  lemma PackedFields(updateType: string, key: ListenerKey, section: Section)
    ensures Split(PackKey(updateType, key, section))
            == ["listen", if section == Registry then "registry" else "lock"] + Split(updateType)
               + [IntText(key.chatId),
                  if key.userId.Some? then IntText(key.userId.value) else "_",
                  if key.messageId.Some? then IntText(key.messageId.value) else "_"]
  {
    hide Split, IntText, PackKey;
    SplitPacked(updateType, key, section);
  }

  /** A message is the key's fields, then the token's. */
  lemma PayloadFields(packed: string, token: string)
    ensures Split(Payload(packed, token)) == Split(packed) + Split(token)
  {
    SplitAt(packed, token);
  }

  /** What is decoded parses to one value for each text. */
  lemma {:induction false} ParsedLength(texts: seq<string>)
    ensures ParseComponents(texts).Ok? ==> |ParseComponents(texts).value| == |texts|
  {
    if |texts| > 0 {
      ParsedLength(texts[1..]);
    }
  }

  lemma FieldsOfType(name: seq<string>, section: string, components: seq<string>)
    requires |name| > 0
    ensures (["listen", section] + name + components)[3..] == name[1..] + components
  {
  }

  /** Every key survives the trip, whatever its integers, exactly when the type name holds no separator. */
  lemma UnpackPack(updateType: string, key: ListenerKey, section: Section)
    ensures UnpackKey(PackKey(updateType, key, section)) == Ok(key) <==> SepFree(updateType)
  {
    assert |ComponentTexts(key)| == 3;
    hide Split, ComponentTexts, PackKey, ParseComponents;
    SplitPacked(updateType, key, section);
    SplitOne(updateType);
    FieldsOfType(Split(updateType), SectionText(section), ComponentTexts(key));
    var fields := Split(PackKey(updateType, key, section));
    if SepFree(updateType) {
      ParsedComponents(key);
      assert Split(updateType)[1..] == [];
      assert fields[3..] == ComponentTexts(key);
    } else {
      ParsedLength(fields[3..]);
    }
  }

  /** Different keys, sections or types never share a backend key, whatever the type names hold. */
  lemma PackInjective(t: string, a: ListenerKey, s: Section, u: string, b: ListenerKey, r: Section)
    requires PackKey(t, a, s) == PackKey(u, b, r)
    ensures t == u && a == b && s == r
  {
    SplitPacked(t, a, s);
    SplitPacked(u, b, r);
    ParsedComponents(a);
    ParsedComponents(b);
    var packed, n := PackKey(t, a, s), |Split(PackKey(t, a, s))|;
    hide Split, Join, PackKey;
    assert Split(packed)[1] == SectionText(s) == SectionText(r);
    assert Split(packed)[n - 3..] == ComponentTexts(a) == ComponentTexts(b);
    SameType(t, a, s, u, b);
  }

  lemma SameType(t: string, a: ListenerKey, section: Section, u: string, b: ListenerKey)
    requires PackKey(t, a, section) == PackKey(u, b, section) && ComponentTexts(a) == ComponentTexts(b)
    ensures t == u
  {
    hide Join, ComponentTexts;
    var front := "listen" + [SEP] + SectionText(section) + [SEP];
    assert PackKey(t, a, section)[|front|..][..|t|] == t;
    assert PackKey(u, b, section)[|front|..][..|u|] == u;
  }

  /** A published signal is read back as exactly the key and token it was published with, if and only if
      neither the type name nor the token holds the separator. */
  lemma ReadPublished(updateType: string, key: ListenerKey, token: string)
    ensures ReadPayload(Payload(PackKey(updateType, key, Registry), token)) == Some((Ok(key), token))
            <==> SepFree(updateType) && SepFree(token)
  {
    var packed := PackKey(updateType, key, Registry);
    UnpackPack(updateType, key, Registry);
    assert |packed| > 0;
    hide PackKey, UnpackKey, RPartition;
    if SepFree(token) {
      RPartitionAt(packed, token);
    } else {
      RPartitionPlain(packed + [SEP] + token);
    }
  }
}

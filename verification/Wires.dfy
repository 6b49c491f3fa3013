/** What a call is known by and what is sent for it: the probe of the cache, and the provider's request. */
module Wires {
  import opened Utf16
  import opened Values
  import opened Grammar
  import opened RoundTrip
  import opened Chain

  datatype Excerpt = Excerpt(kbId: Str, text: Str)

  /** A call once its material has been redacted. */
  datatype Request = Request(agent: Str, ticket: Option<Str>, org: Str, promptVersion: Str, promptText: Str,
                             body: Str, kb: seq<Excerpt>, locale: Str, model: Str, sampling: Json, seed: Option<int>,
                             pinned: bool)

  datatype Probe = Probe(inputHash: Str, promptVersion: Str, promptHash: Str, stateHash: Str, model: Str,
                         sampling: Json, seed: Option<int>)

  datatype Wire = Wire(model: Str, system: Str, user: Str, sampling: Json, seed: Option<int>)

  const KB_ID := Name("kb_id")
  const EXCERPT := Name("excerpt")
  const BODY := Name("body_redacted")
  const KB_CONTEXT := Name("kb_context")
  const ENQUIRY := Name("enquiry")
  const SOURCES := Name("sources")

  function ExcerptJson(e: Excerpt): Json { Obj(map[KB_ID := String(e.kbId), EXCERPT := String(e.text)]) }

  function Excerpts(kb: seq<Excerpt>): seq<Json> { seq(|kb|, i requires 0 <= i < |kb| => ExcerptJson(kb[i])) }

  function OptionalText(t: Option<Str>): Json { match t case None => Null case Some(s) => String(s) }

  /** The envelope whose digest is the input's. */
  function Envelope(r: Request): Json {
    Obj(map[Name("schema_version") := String(Name("1.0")), Name("agent") := String(r.agent),
            Name("prompt_version_id") := String(r.promptVersion), Name("ticket_id") := OptionalText(r.ticket),
            BODY := String(r.body), KB_CONTEXT := Arr(Excerpts(r.kb)), Name("locale") := String(r.locale)])
  }

  function CanonicalJson(v: Json): Str {
    UnitAlwaysWrites(v);
    Canonical(ByUnit, v).text
  }

  /** The enquiry and its sources as values of one object. */
  function Message(body: Str, kb: seq<Excerpt>): Json {
    Obj(map[ENQUIRY := String(body), SOURCES := Arr(Excerpts(kb))])
  }

  function RenderUserMessage(body: Str, kb: seq<Excerpt>): Str {
    CanonicalJson(Message(body, kb))
  }

  function ProbeOf(digest: Digest, stateHash: Str, r: Request): Probe {
    Probe(digest(CanonicalJson(Envelope(r))), r.promptVersion, digest(r.promptText), stateHash, r.model, r.sampling,
          r.seed)
  }

  function WireOf(r: Request): Wire {
    Wire(r.model, r.promptText, RenderUserMessage(r.body, r.kb), r.sampling, r.seed)
  }

  // ----- what the texts determine -----

  lemma ExcerptsDetermine(a: seq<Excerpt>, b: seq<Excerpt>)
    requires Excerpts(a) == Excerpts(b)
    ensures a == b
  {
    assert |Excerpts(a)| == |Excerpts(b)|;
    forall i | 0 <= i < |a| ensures a[i] == b[i] {
      assert Excerpts(a)[i] == Excerpts(b)[i];
      ExcerptReads(a[i]);
      ExcerptReads(b[i]);
    }
  }

  lemma ExcerptReads(e: Excerpt)
    ensures var m := ExcerptJson(e).members;
      KB_ID in m && m[KB_ID] == String(e.kbId) && EXCERPT in m && m[EXCERPT] == String(e.text)
  {
    assert |KB_ID| != |EXCERPT|;
  }

  lemma EnvelopeReads(r: Request)
    ensures var m := Envelope(r).members;
      BODY in m && m[BODY] == String(r.body) && KB_CONTEXT in m && m[KB_CONTEXT] == Arr(Excerpts(r.kb))
  {
    assert |Name("schema_version")| == 14 && |Name("agent")| == 5 && |Name("prompt_version_id")| == 17;
    assert |Name("ticket_id")| == 9 && |BODY| == 13 && |KB_CONTEXT| == 10 && |Name("locale")| == 6;
  }

  lemma MessageMembers(body: Str, kb: seq<Excerpt>)
    ensures var m := Message(body, kb).members;
      && ENQUIRY != SOURCES && m.Keys == {ENQUIRY, SOURCES}
      && m[ENQUIRY] == String(body) && m[SOURCES] == Arr(Excerpts(kb))
  {
    assert ENQUIRY[0] != SOURCES[0];
  }

  /** Nothing typed in an enquiry can pass for a source, or a source for an enquiry: one message has one
      reading. */
  lemma MessageDetermines(a: Str, x: seq<Excerpt>, b: Str, y: seq<Excerpt>)
    requires RenderUserMessage(a, x) == RenderUserMessage(b, y)
    ensures a == b && x == y
  {
    UnitAlwaysWrites(Message(a, x));
    UnitAlwaysWrites(Message(b, y));
    CanonicalDetermines(ByUnit, Message(a, x), Message(b, y));
    MessageMembers(a, x);
    MessageMembers(b, y);
    ExcerptsDetermine(x, y);
  }

  /** Two texts that are given one digest. */
  predicate Collides(digest: Digest, a: Str, b: Str) { a != b && digest(a) == digest(b) }

  /** Two calls the digest cannot tell apart, by their envelopes or by their prompts. */
  predicate Confused(digest: Digest, r: Request, s: Request) {
    Collides(digest, CanonicalJson(Envelope(r)), CanonicalJson(Envelope(s)))
        || Collides(digest, r.promptText, s.promptText)
  }

  /** One probe is one request to the provider: what the key leaves out never reaches it. */
  lemma ProbeDeterminesWire(digest: Digest, stateHash: Str, r: Request, s: Request)
    requires ProbeOf(digest, stateHash, r) == ProbeOf(digest, stateHash, s)
    ensures WireOf(r) == WireOf(s) || Confused(digest, r, s)
  {
    if !Confused(digest, r, s) {
      UnitAlwaysWrites(Envelope(r));
      UnitAlwaysWrites(Envelope(s));
      CanonicalDetermines(ByUnit, Envelope(r), Envelope(s));
      EnvelopeReads(r);
      EnvelopeReads(s);
      ExcerptsDetermine(r.kb, s.kb);
    }
  }

  // ----- how long a message is -----

  lemma MembersLength(v: Json, keys: seq<Str>)
    requires v.Obj? && |keys| == 2 && forall k :: k in keys ==> k in v.members
    ensures var first, second := Canonical(ByUnit, v.members[keys[0]]), Canonical(ByUnit, v.members[keys[1]]);
      first.Written? && second.Written? ==>
        && CanonicalMembers(ByUnit, v, keys).Written?
        && |CanonicalMembers(ByUnit, v, keys).text|
           == |Quote(keys[0])| + |Quote(keys[1])| + |first.text| + |second.text| + 3
  {
    assert keys[1..] == [keys[1]];
  }

  lemma TwoKeys(ks: seq<Str>, a: Str, b: Str)
    requires Lists(ks, {a, b}) && |ks| == 2 && a != b
    ensures ks == [a, b] || ks == [b, a]
  {
    assert a in ks && b in ks;
    forall k | 0 <= k < |ks| ensures ks[k] == a || ks[k] == b {
      assert ks[k] in ks;
      assert ks[k] in {a, b};
    }
  }

  lemma TwoMembersLength(v: Json, a: Str, b: Str)
    requires v.Obj? && v.members.Keys == {a, b} && a != b
    requires Canonical(ByUnit, v.members[a]).Written? && Canonical(ByUnit, v.members[b]).Written?
    ensures var ks := SortedKeys(ByUnit, {a, b});
      && Lists(ks, {a, b}) && CanonicalMembers(ByUnit, v, ks).Written?
      && |CanonicalMembers(ByUnit, v, ks).text| == |Quote(a)| + |Quote(b)|
         + |Canonical(ByUnit, v.members[a]).text| + |Canonical(ByUnit, v.members[b]).text| + 3
  {
    SortedKeysList(ByUnit, {a, b});
    SortedKeysCount(ByUnit, {a, b});
    var ks := SortedKeys(ByUnit, {a, b});
    TwoKeys(ks, a, b);
    MembersLength(v, ks);
  }

  lemma StringLength(s: Str)
    ensures Canonical(ByUnit, String(s)).Written? && |Canonical(ByUnit, String(s)).text| == |Escape(s)| + 2
  {
  }

  lemma ObjectLength(v: Json)
    requires v.Obj? && Canonical(ByUnit, v).Written?
    requires CanonicalMembers(ByUnit, v, KeysOf(v)).Written?
    ensures |Canonical(ByUnit, v).text| == |CanonicalMembers(ByUnit, v, KeysOf(v)).text| + 2
  {
  }

  function KeysOf(v: Json): (ks: seq<Str>)
    requires v.Obj?
    ensures forall k :: k in ks ==> k in v.members
  {
    SortedKeysList(ByUnit, v.members.Keys);
    SortedKeys(ByUnit, v.members.Keys)
  }

  /** A message is as long as its enquiry as written and what its sources take. */
  lemma MessageLength(body: Str, kb: seq<Excerpt>)
    ensures |RenderUserMessage(body, kb)|
         == |Escape(body)| + |CanonicalJson(Arr(Excerpts(kb)))| + |Quote(ENQUIRY)| + |Quote(SOURCES)| + 7
  {
    var v := Message(body, kb);
    MessageMembers(body, kb);
    UnitAlwaysWrites(v);
    UnitAlwaysWrites(Arr(Excerpts(kb)));
    StringLength(body);
    TwoMembersLength(v, ENQUIRY, SOURCES);
    ObjectLength(v);
  }

  /** Text that is written as it stands. */
  predicate Plain(s: Str) { forall i :: 0 <= i < |s| ==> 0x20 <= s[i] < 0x80 && s[i] != QUOTE && s[i] != BACKSLASH }

  lemma {:induction false} PlainEscapes(s: Str)
    requires Plain(s)
    ensures Escape(s) == s
  {
    if s != [] { PlainEscapes(s[1..]); }
  }

  const ADDRESS := Name("a@b.co")
  const MARKER := Name("[REDACTED:email]")

  /** The marker an address is replaced by is longer than the address, wherever it ends an enquiry. */
  lemma MarkerIsLonger(words: Str)
    requires Plain(words)
    ensures |Escape(words + MARKER)| == |Escape(words + ADDRESS)| + 10
  {
    assert Plain(MARKER) && Plain(ADDRESS);
    PlainEscapes(words + MARKER);
    PlainEscapes(words + ADDRESS);
  }
}

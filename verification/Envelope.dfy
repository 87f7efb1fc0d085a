/** The encoder of inscription envelopes, and what an envelope tells about the
    inscription in it. */
module Envelope {
  import opened Bytes
  import opened Script
  import opened Ord

  // ----- the encoder -----

  lemma PushesConcat(a: seq<Bytes>, b: seq<Bytes>)
    ensures Pushes(a + b) == Pushes(a) + Pushes(b)
  {
  }

  lemma PushesOne(data: Bytes)
    ensures Pushes([data]) == [Instr.Push(data)]
  {
  }

  lemma PushesTwo(x: Bytes, y: Bytes)
    ensures Pushes([x, y]) == [Instr.Push(x), Instr.Push(y)]
  {
  }

  lemma ChunksNext(data: Bytes)
    requires data != []
    ensures var n := if |data| <= MAX_SCRIPT_ELEMENT_SIZE then |data| else MAX_SCRIPT_ELEMENT_SIZE;
            Chunks(data) == [data[..n]] + Chunks(data[n..])
  {
    if |data| <= MAX_SCRIPT_ELEMENT_SIZE { assert data[..|data|] == data && data[|data|..] == []; }
  }

  lemma TaggedNext(tag: Bytes, x: Bytes, xs: seq<Bytes>)
    ensures Tagged(tag, [x] + xs) == [tag, x] + Tagged(tag, xs)
  {
    assert ([x] + xs)[1..] == xs;
  }

  /** `tag chunk` for every chunk. */
  method EncodeChunked(builder: seq<Instr>, tag: Bytes, value: Bytes) returns (tmp: seq<Instr>)
    ensures tmp == builder + Pushes(Tagged(tag, Chunks(value)))
  {
    tmp := builder;
    var rest := value;
    while rest != []
      invariant tmp + Pushes(Tagged(tag, Chunks(rest))) == builder + Pushes(Tagged(tag, Chunks(value)))
      decreases |rest|
    {
      var n := if |rest| <= MAX_SCRIPT_ELEMENT_SIZE then |rest| else MAX_SCRIPT_ELEMENT_SIZE;
      ChunksNext(rest);
      var chunk, more := rest[..n], rest[n..];
      TaggedNext(tag, chunk, Chunks(more));
      PushesConcat([tag, chunk], Tagged(tag, Chunks(more)));
      PushesTwo(tag, chunk);
      Assoc(tmp, [Instr.Push(tag), Instr.Push(chunk)], Pushes(Tagged(tag, Chunks(more))));
      tmp := tmp + [Instr.Push(tag), Instr.Push(chunk)];
      rest := more;
    }
    assert Pushes(Tagged(tag, Chunks([]))) == [];
  }

  /** One field: nothing when it is absent. */
  method EncodeField(builder: seq<Instr>, tag: Tag, value: Option<Bytes>) returns (tmp: seq<Instr>)
    ensures tmp == builder + Pushes(FieldPushes(tag, value))
  {
    tmp := builder;
    assert Pushes([]) == [];
    if value.Some? {
      if IsChunked(tag) && value.value != [] {
        tmp := EncodeChunked(tmp, TagBytes(tag), value.value);
      } else {
        PushesTwo(TagBytes(tag), value.value);
        tmp := tmp + [Instr.Push(TagBytes(tag)), Instr.Push(value.value)];
      }
    }
  }

  /** The body tag and the chunks of the body. */
  method EncodeBody(builder: seq<Instr>, body: Option<Bytes>) returns (out: seq<Instr>)
    ensures out == builder + Pushes(BodyPushes(body))
  {
    out := builder;
    assert Pushes([]) == [];
    if body.Some? {
      PushesConcat([BODY_TAG], Chunks(body.value));
      PushesOne(BODY_TAG);
      Assoc(builder, [Instr.Push(BODY_TAG)], Pushes(Chunks(body.value)));
      out := out + [Instr.Push(BODY_TAG)];
      var rest := body.value;
      while rest != []
        invariant out + Pushes(Chunks(rest)) == builder + Pushes(BodyPushes(body))
        decreases |rest|
      {
        var n := if |rest| <= MAX_SCRIPT_ELEMENT_SIZE then |rest| else MAX_SCRIPT_ELEMENT_SIZE;
        ChunksNext(rest);
        var chunk, more := rest[..n], rest[n..];
        PushesConcat([chunk], Chunks(more));
        PushesOne(chunk);
        Assoc(out, [Instr.Push(chunk)], Pushes(Chunks(more)));
        out := out + [Instr.Push(chunk)];
        rest := more;
      }
    }
  }

  lemma PayloadGrows(head: seq<Instr>, done: seq<Bytes>, field: seq<Bytes>)
    ensures head + Pushes(done) + Pushes(field) == head + Pushes(done + field)
  {
    PushesConcat(done, field);
    Assoc(head, Pushes(done), Pushes(field));
  }

  lemma RevealParts(builder: seq<Instr>, i: Inscription)
    ensures builder + RevealScript(i) ==
            builder + [Instr.Push([]), Exec(OpIf), Instr.Push(PROTOCOL_ID)] + Pushes(Payload(i)) + [Exec(OpEndIf)]
  {
    var head := [Instr.Push([]), Exec(OpIf), Instr.Push(PROTOCOL_ID)];
    Assoc(builder, head, Pushes(Payload(i)));
    Assoc(builder, head + Pushes(Payload(i)), [Exec(OpEndIf)]);
  }

  /** One more field after those in `done`. */
  method AppendField(builder: seq<Instr>, ghost head: seq<Instr>, ghost done: seq<Bytes>, tag: Tag, value: Option<Bytes>)
    returns (out: seq<Instr>)
    requires builder == head + Pushes(done)
    ensures out == head + Pushes(done + FieldPushes(tag, value))
  {
    out := EncodeField(builder, tag, value);
    PayloadGrows(head, done, FieldPushes(tag, value));
  }

  /** Appends the whole envelope to a script. */
  method AppendRevealScriptToBuilder(i: Inscription, builder: seq<Instr>) returns (out: seq<Instr>)
    ensures out == builder + RevealScript(i)
  {
    out := builder + [Instr.Push([]), Exec(OpIf), Instr.Push(PROTOCOL_ID)];
    ghost var head := out;
    assert out == head + Pushes([]);
    ghost var done1 := [] + FieldPushes(TContentType, i.contentType);
    out := AppendField(out, head, [], TContentType, i.contentType);
    ghost var done2 := done1 + FieldPushes(TContentEncoding, i.contentEncoding);
    out := AppendField(out, head, done1, TContentEncoding, i.contentEncoding);
    ghost var done3 := done2 + FieldPushes(TMetaprotocol, i.metaprotocol);
    out := AppendField(out, head, done2, TMetaprotocol, i.metaprotocol);
    ghost var done4 := done3 + FieldPushes(TParent, i.parent);
    out := AppendField(out, head, done3, TParent, i.parent);
    ghost var done5 := done4 + FieldPushes(TDelegate, i.delegate);
    out := AppendField(out, head, done4, TDelegate, i.delegate);
    ghost var done6 := done5 + FieldPushes(TPointer, i.pointer);
    out := AppendField(out, head, done5, TPointer, i.pointer);
    ghost var done7 := done6 + FieldPushes(TMetadata, i.metadata);
    out := AppendField(out, head, done6, TMetadata, i.metadata);
    out := EncodeBody(out, i.body);
    PayloadGrows(head, done7, BodyPushes(i.body));
    assert done1 == FieldPushes(TContentType, i.contentType);
    out := out + [Exec(OpEndIf)];
    RevealParts(builder, i);
  }

  // ----- chunks -----

  /** The bytes of the pieces, one after the other. */
  function Join(pieces: seq<Bytes>): Bytes {
    if pieces == [] then [] else pieces[0] + Join(pieces[1..])
  }

  lemma {:induction false} ChunksFull(data: Bytes)
    ensures forall i :: 0 <= i < |Chunks(data)| ==> Chunks(data)[i] != []
    ensures data != [] ==> Chunks(data) != []
  {
    if |data| > MAX_SCRIPT_ELEMENT_SIZE { ChunksFull(data[MAX_SCRIPT_ELEMENT_SIZE..]); }
  }

  /** Joining the chunks gives the bytes back. */
  lemma {:induction false} JoinChunks(data: Bytes)
    ensures Join(Chunks(data)) == data
  {
    if |data| > MAX_SCRIPT_ELEMENT_SIZE {
      var first, rest := data[..MAX_SCRIPT_ELEMENT_SIZE], data[MAX_SCRIPT_ELEMENT_SIZE..];
      JoinChunks(rest);
      assert ([first] + Chunks(rest))[1..] == Chunks(rest);
      assert first + rest == data;
    } else if data != [] {
      assert [data][1..] == [] && data + [] == data;
    }
  }

  lemma ChunksDecide(d: Bytes, e: Bytes)
    requires Chunks(d) == Chunks(e)
    ensures d == e
  {
    JoinChunks(d);
    JoinChunks(e);
  }

  // ----- an envelope determines its fields -----

  type Field = (Tag, Option<Bytes>)

  /** The fields in the order in which they are written. */
  function Fields(i: Inscription): seq<Field> {
    [(TContentType, i.contentType), (TContentEncoding, i.contentEncoding), (TMetaprotocol, i.metaprotocol),
     (TParent, i.parent), (TDelegate, i.delegate), (TPointer, i.pointer), (TMetadata, i.metadata)]
  }

  function FieldsPushes(fs: seq<Field>, body: Option<Bytes>): seq<Bytes> {
    if fs == [] then BodyPushes(body) else FieldPushes(fs[0].0, fs[0].1) + FieldsPushes(fs[1..], body)
  }

  /** Everything but the flags that record how an envelope was found. */
  predicate SameFields(i: Inscription, j: Inscription) { Fields(i) == Fields(j) && i.body == j.body }

  lemma FieldsFrom(a: seq<Bytes>, fs: seq<Field>, f: Field, rest: seq<Field>, body: Option<Bytes>)
    requires fs == [f] + rest
    ensures a + FieldsPushes(fs, body) == a + FieldPushes(f.0, f.1) + FieldsPushes(rest, body)
  {
    assert fs[1..] == rest;
    var b, c := FieldPushes(f.0, f.1), FieldsPushes(rest, body);
    assert a + (b + c) == a + b + c;
  }

  lemma PayloadFields(i: Inscription)
    ensures Payload(i) == FieldsPushes(Fields(i), i.body)
  {
    var f7 := [(TMetadata, i.metadata)];
    var f6 := [(TPointer, i.pointer)] + f7;
    var f5 := [(TDelegate, i.delegate)] + f6;
    var f4 := [(TParent, i.parent)] + f5;
    var f3 := [(TMetaprotocol, i.metaprotocol)] + f4;
    var f2 := [(TContentEncoding, i.contentEncoding)] + f3;
    var f1 := [(TContentType, i.contentType)] + f2;
    assert Fields(i) == f1 && f7 == f7 + [];
    var a1 := [] + FieldPushes(TContentType, i.contentType);
    var a2 := a1 + FieldPushes(TContentEncoding, i.contentEncoding);
    var a3 := a2 + FieldPushes(TMetaprotocol, i.metaprotocol);
    var a4 := a3 + FieldPushes(TParent, i.parent);
    var a5 := a4 + FieldPushes(TDelegate, i.delegate);
    var a6 := a5 + FieldPushes(TPointer, i.pointer);
    FieldsFrom([], f1, (TContentType, i.contentType), f2, i.body);
    FieldsFrom(a1, f2, (TContentEncoding, i.contentEncoding), f3, i.body);
    FieldsFrom(a2, f3, (TMetaprotocol, i.metaprotocol), f4, i.body);
    FieldsFrom(a3, f4, (TParent, i.parent), f5, i.body);
    FieldsFrom(a4, f5, (TDelegate, i.delegate), f6, i.body);
    FieldsFrom(a5, f6, (TPointer, i.pointer), f7, i.body);
    FieldsFrom(a6, f7, (TMetadata, i.metadata), [], i.body);
    assert [] + FieldsPushes(f1, i.body) == FieldsPushes(f1, i.body);
    assert a1 == FieldPushes(TContentType, i.contentType);
  }

  predicate DistinctTags(fs: seq<Field>) {
    forall j, k :: 0 <= j < k < |fs| ==> fs[j].0 != fs[k].0
  }

  predicate SameTags(fs: seq<Field>, gs: seq<Field>) {
    |fs| == |gs| && forall k :: 0 <= k < |fs| ==> fs[k].0 == gs[k].0
  }

  lemma TagsDiffer(s: Tag, t: Tag)
    ensures TagBytes(s) != [] && (s != t ==> TagBytes(s) != TagBytes(t))
  {
    assert TagBytes(s)[0] != TagBytes(t)[0] || s == t;
  }

  /** Pushes that do not begin with a tag. */
  predicate Unlike(tag: Bytes, pushes: seq<Bytes>) { pushes != [] ==> pushes[0] != tag }

  /** A field that is present begins with its tag. */
  lemma FieldStarts(t: Tag, v: Option<Bytes>)
    ensures v == None ==> FieldPushes(t, v) == []
    ensures v.Some? ==> |FieldPushes(t, v)| >= 2 && FieldPushes(t, v)[0] == TagBytes(t)
  {
    if v.Some? && IsChunked(t) && v.value != [] {
      var n := if |v.value| <= MAX_SCRIPT_ELEMENT_SIZE then |v.value| else MAX_SCRIPT_ELEMENT_SIZE;
      ChunksNext(v.value);
      TaggedNext(TagBytes(t), v.value[..n], Chunks(v.value[n..]));
    }
  }

  /** What follows a field never begins with that field's tag. */
  lemma {:induction false} LaterTags(t: Tag, fs: seq<Field>, body: Option<Bytes>)
    requires forall k :: 0 <= k < |fs| ==> fs[k].0 != t
    ensures Unlike(TagBytes(t), FieldsPushes(fs, body))
    decreases |fs|
  {
    if fs == [] {
      TagsDiffer(t, t);
    } else {
      TagsDiffer(t, fs[0].0);
      LaterTags(t, fs[1..], body);
      FieldStarts(fs[0].0, fs[0].1);
      if fs[0].1 == None {
        assert FieldsPushes(fs, body) == FieldsPushes(fs[1..], body);
      } else {
        assert FieldsPushes(fs, body)[0] == FieldPushes(fs[0].0, fs[0].1)[0];
      }
    }
  }

  lemma TaggedFirst(tag: Bytes, x: Bytes, xs: seq<Bytes>, a: seq<Bytes>)
    ensures Tagged(tag, [x] + xs) + a == [tag, x] + (Tagged(tag, xs) + a)
  {
    TaggedNext(tag, x, xs);
  }

  lemma TwoFirst(x: Bytes, y: Bytes, a: seq<Bytes>, x': Bytes, y': Bytes, b: seq<Bytes>)
    requires [x, y] + a == [x', y'] + b
    ensures x == x' && y == y' && a == b
  {
    var l, r := [x, y] + a, [x', y'] + b;
    assert l[0] == x && r[0] == x' && l[1] == y && r[1] == y' && l[2..] == a && r[2..] == b;
  }

  lemma TaggedStarts(tag: Bytes, xs: seq<Bytes>, a: seq<Bytes>)
    ensures xs != [] ==> !Unlike(tag, Tagged(tag, xs) + a)
    ensures xs == [] ==> Tagged(tag, xs) + a == a
  {
    if xs != [] {
      assert xs == [xs[0]] + xs[1..];
      TaggedFirst(tag, xs[0], xs[1..], a);
    }
  }

  lemma {:induction false} TaggedDecides(tag: Bytes, xs: seq<Bytes>, ys: seq<Bytes>, a: seq<Bytes>, b: seq<Bytes>)
    requires Tagged(tag, xs) + a == Tagged(tag, ys) + b && Unlike(tag, a) && Unlike(tag, b)
    ensures xs == ys && a == b
    decreases |xs|
  {
    TaggedStarts(tag, xs, a);
    TaggedStarts(tag, ys, b);
    if xs != [] && ys != [] {
      assert xs == [xs[0]] + xs[1..] && ys == [ys[0]] + ys[1..];
      TaggedFirst(tag, xs[0], xs[1..], a);
      TaggedFirst(tag, ys[0], ys[1..], b);
      TwoFirst(tag, xs[0], Tagged(tag, xs[1..]) + a, tag, ys[0], Tagged(tag, ys[1..]) + b);
      TaggedDecides(tag, xs[1..], ys[1..], a, b);
    }
  }

  /** The values that follow the tag of a field: for a chunked one, its chunks. */
  function Values(t: Tag, v: Bytes): seq<Bytes> { if IsChunked(t) && v != [] then Chunks(v) else [v] }

  lemma FieldValues(t: Tag, v: Bytes)
    ensures FieldPushes(t, Some(v)) == Tagged(TagBytes(t), Values(t, v))
  {
    TaggedNext(TagBytes(t), v, []);
    assert [v] + [] == [v] && Tagged(TagBytes(t), []) == [];
  }

  lemma ValuesDecide(t: Tag, v: Bytes, w: Bytes)
    requires Values(t, v) == Values(t, w)
    ensures v == w
  {
    ChunksFull(v);
    ChunksFull(w);
    if IsChunked(t) && v != [] && w != [] { ChunksDecide(v, w); }
  }

  lemma ValuesDecideField(t: Tag, v: Bytes, w: Bytes, a: seq<Bytes>, b: seq<Bytes>)
    requires FieldPushes(t, Some(v)) + a == FieldPushes(t, Some(w)) + b
    requires Unlike(TagBytes(t), a) && Unlike(TagBytes(t), b)
    ensures v == w && a == b
  {
    FieldValues(t, v);
    FieldValues(t, w);
    TaggedDecides(TagBytes(t), Values(t, v), Values(t, w), a, b);
    ValuesDecide(t, v, w);
  }

  lemma FieldThen(t: Tag, v: Option<Bytes>, a: seq<Bytes>)
    ensures v.Some? ==> !Unlike(TagBytes(t), FieldPushes(t, v) + a)
    ensures v == None ==> FieldPushes(t, v) + a == a
  {
    FieldStarts(t, v);
    if v.Some? { assert (FieldPushes(t, v) + a)[0] == TagBytes(t); }
  }

  lemma FieldDecides(t: Tag, v: Option<Bytes>, w: Option<Bytes>, a: seq<Bytes>, b: seq<Bytes>)
    requires FieldPushes(t, v) + a == FieldPushes(t, w) + b && Unlike(TagBytes(t), a) && Unlike(TagBytes(t), b)
    ensures v == w && a == b
  {
    FieldThen(t, v, a);
    FieldThen(t, w, b);
    if v.Some? && w.Some? { ValuesDecideField(t, v.value, w.value, a, b); }
  }

  lemma BodyDecides(v: Option<Bytes>, w: Option<Bytes>)
    requires BodyPushes(v) == BodyPushes(w)
    ensures v == w
  {
    if v.Some? && w.Some? {
      assert BodyPushes(v)[1..] == Chunks(v.value) && BodyPushes(w)[1..] == Chunks(w.value);
      ChunksDecide(v.value, w.value);
    }
  }

  lemma {:induction false} FieldsDecide(fs: seq<Field>, gs: seq<Field>, v: Option<Bytes>, w: Option<Bytes>)
    requires SameTags(fs, gs) && DistinctTags(fs) && FieldsPushes(fs, v) == FieldsPushes(gs, w)
    ensures fs == gs && v == w
    decreases |fs|
  {
    if fs == [] {
      BodyDecides(v, w);
    } else {
      var ft, gt := fs[1..], gs[1..];
      LaterTags(fs[0].0, ft, v);
      LaterTags(fs[0].0, gt, w);
      FieldDecides(fs[0].0, fs[0].1, gs[0].1, FieldsPushes(ft, v), FieldsPushes(gt, w));
      FieldsDecide(ft, gt, v, w);
      assert fs == [fs[0]] + ft && gs == [gs[0]] + gt;
    }
  }

  /** Two inscriptions have the same payload exactly when they agree on all
      fields but the flags. */
  lemma PayloadDecides(i: Inscription, j: Inscription)
    ensures Payload(i) == Payload(j) <==> SameFields(i, j)
  {
    PayloadFields(i);
    PayloadFields(j);
    FieldsShape(i, j);
    if Payload(i) == Payload(j) { FieldsDecide(Fields(i), Fields(j), i.body, j.body); }
  }

  lemma FieldsShape(i: Inscription, j: Inscription)
    ensures SameTags(Fields(i), Fields(j)) && DistinctTags(Fields(i))
  {
  }

  // ----- several envelopes in a script -----

  /** How many instructions precede the first ENDIF. */
  function BeforeEndIf(code: seq<Instr>): nat {
    if code == [] || code[0] == Exec(OpEndIf) then 0 else 1 + BeforeEndIf(code[1..])
  }

  lemma {:induction false} PushesThenEnd(xs: seq<Bytes>, a: seq<Instr>)
    ensures BeforeEndIf(Pushes(xs) + [Exec(OpEndIf)] + a) == |xs|
    decreases |xs|
  {
    var code := Pushes(xs) + [Exec(OpEndIf)] + a;
    if xs != [] {
      assert code[0] == Instr.Push(xs[0]);
      assert code[1..] == Pushes(xs[1..]) + [Exec(OpEndIf)] + a;
      PushesThenEnd(xs[1..], a);
    }
  }

  lemma UpToEndIf(xs: seq<Bytes>, ys: seq<Bytes>, a: seq<Instr>, b: seq<Instr>)
    requires Pushes(xs) + [Exec(OpEndIf)] + a == Pushes(ys) + [Exec(OpEndIf)] + b
    ensures xs == ys && a == b
  {
    PushesThenEnd(xs, a);
    PushesThenEnd(ys, b);
    var l, r := Pushes(xs) + [Exec(OpEndIf)] + a, Pushes(ys) + [Exec(OpEndIf)] + b;
    assert forall k :: 0 <= k < |xs| ==> l[k] == Instr.Push(xs[k]) && r[k] == Instr.Push(ys[k]);
    assert a == l[|xs| + 1..] && b == r[|xs| + 1..];
  }

  lemma RevealThen(i: Inscription, a: seq<Instr>)
    ensures |RevealScript(i) + a| >= 3 && (RevealScript(i) + a)[3..] == Pushes(Payload(i)) + [Exec(OpEndIf)] + a
  {
    var head := [Instr.Push([]), Exec(OpIf), Instr.Push(PROTOCOL_ID)];
    Assoc(head, Pushes(Payload(i)), [Exec(OpEndIf)]);
    Assoc(head, Pushes(Payload(i)) + [Exec(OpEndIf)], a);
  }

  lemma FirstEnvelope(i: Inscription, j: Inscription, a: seq<Instr>, b: seq<Instr>)
    requires RevealScript(i) + a == RevealScript(j) + b
    ensures SameFields(i, j) && a == b
  {
    RevealThen(i, a);
    RevealThen(j, b);
    UpToEndIf(Payload(i), Payload(j), a, b);
    PayloadDecides(i, j);
  }

  predicate AllSameFields(xs: seq<Inscription>, ys: seq<Inscription>) {
    |xs| == |ys| && forall k :: 0 <= k < |xs| ==> SameFields(xs[k], ys[k])
  }

  lemma AllSameRest(xs: seq<Inscription>, ys: seq<Inscription>)
    requires xs != [] && ys != []
    ensures AllSameFields(xs, ys) <==> SameFields(xs[0], ys[0]) && AllSameFields(xs[1..], ys[1..])
  {
    var xt, yt := xs[1..], ys[1..];
    if SameFields(xs[0], ys[0]) && AllSameFields(xt, yt) {
      forall k | 0 <= k < |xs|
        ensures SameFields(xs[k], ys[k])
      {
        if k > 0 { assert SameFields(xt[k - 1], yt[k - 1]); }
      }
    }
    if AllSameFields(xs, ys) {
      forall k | 0 <= k < |xt|
        ensures SameFields(xt[k], yt[k])
      {
        assert SameFields(xs[k + 1], ys[k + 1]);
      }
    }
  }

  /** A script of envelopes determines how many inscriptions it holds, and the
      fields of each. */
  lemma {:induction false} EnvelopesDecide(xs: seq<Inscription>, ys: seq<Inscription>)
    ensures RevealScripts(xs) == RevealScripts(ys) <==> AllSameFields(xs, ys)
    decreases |xs|
  {
    if xs != [] && ys != [] {
      EnvelopesDecide(xs[1..], ys[1..]);
      AllSameRest(xs, ys);
      PayloadDecides(xs[0], ys[0]);
      if RevealScripts(xs) == RevealScripts(ys) {
        FirstEnvelope(xs[0], ys[0], RevealScripts(xs[1..]), RevealScripts(ys[1..]));
      }
    } else {
      assert xs != [] ==> |RevealScripts(xs)| > 0;
      assert ys != [] ==> |RevealScripts(ys)| > 0;
    }
  }
}

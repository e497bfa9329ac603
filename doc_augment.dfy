/** The optional structured-extraction step of `verify_document`: the reply of the text
    model is cut down to its outermost braces and decoded, its fields fill the holes the
    regular expressions left, and its detected type may replace a weak rule-based guess.
    The model's reply and the JSON decoder are parameters. */
module Augment {
  import opened Wrappers
  import opened Text
  import opened Json
  import opened DocModel
  import Classifier
  import Fields

  // ---------------------------------------------------------------------------------------
  // _json_snip
  // ---------------------------------------------------------------------------------------

  /** `_json_snip(text)`: decode the stretch from the first `{` to the last `}`; nothing when
      the text is empty, either brace is missing, or the last `}` does not follow the first
      `{`. `decode` is `json.loads`, with `None` for the exception it may raise. */
  function JsonSnip(text: string, decode: string -> Option<Value>): (r: Option<Value>)
    ensures '{' !in text || '}' !in text ==> r.None?
  {
    if text == [] then None
    else
      match (Find(text, '{'), RFind(text, '}'))
      case (Some(start), Some(end)) =>
        if end <= start then None else decode(text[start..end + 1])
      case _ => None
  }

  /** Whatever surrounds the object, as long as no `{` comes before it and no `}` after it,
      the decoder sees exactly the object. */
  lemma {:induction false} JsonSnipFindsObject(pre: string, blob: string, post: string, decode: string -> Option<Value>)
    requires |blob| >= 2 && blob[0] == '{' && blob[|blob| - 1] == '}'
    requires '{' !in pre && '}' !in post
    ensures JsonSnip(pre + blob + post, decode) == decode(blob)
  {
    var text := pre + blob + post;
    var start := |pre|;
    var end := |pre| + |blob| - 1;
    assert text[..start] == pre;
    assert text[end + 1..] == post[..] by {
      assert text[end + 1..] == post;
    }
    FindIs(text, '{', start);
    RFindIs(text, '}', end);
    assert text[start..end + 1] == blob;
  }

  /** A reply whose last `}` comes before its first `{` is not decoded at all. */
  lemma {:induction false} JsonSnipBracesReversed(text: string, decode: string -> Option<Value>)
    requires '{' in text && '}' in text
    requires forall i, j :: 0 <= i < j < |text| && text[i] == '{' ==> text[j] != '}'
    ensures JsonSnip(text, decode).None?
  {
  }

  /** `GeminiFieldExtractor.extract` as seen by `verify_document`: the payload is `{}` when the
      extractor is disabled, when the text is empty, or when the call raised (`reply` is
      `Err`); otherwise it is the snipped reply, or `{}` when that is missing or falsy. */
  function Payload(enabled: bool, textEmpty: bool, reply: Result<string>, decode: string -> Option<Value>): (v: Value)
    ensures !enabled || textEmpty || reply.Err? ==> v == Obj(map[])
  {
    if !enabled || textEmpty then Obj(map[])
    else match reply
      case Err(_) => Obj(map[])
      case Ok(text) =>
        var parsed := JsonSnip(text, decode);
        if parsed.Some? && Truthy(parsed.value) then parsed.value else Obj(map[])
  }

  // ---------------------------------------------------------------------------------------
  // Field merge
  // ---------------------------------------------------------------------------------------

  /** `(gemini_payload.get("extracted_fields") or {})`, merged only when it is a dict. */
  function PayloadFields(payload: Value): (r: Option<map<string, Value>>)
    ensures !payload.Obj? ==> r.None?
  {
    if !payload.Obj? then None
    else
      var g := Get(payload.fields, "extracted_fields", Null);
      if !Truthy(g) then Some(map[])
      else if g.Obj? then Some(g.fields)
      else None
  }

  /** The augmenter's value for `k` replaces the current one: it is not null, and the key is
      absent or holds a hole. */
  predicate Fills(fields: map<string, Value>, g: map<string, Value>, k: string) {
    k in g && g[k] != Null && (k !in fields || IsHole(fields[k]))
  }

  /** The dictionary after the merge, key by key. */
  function Merged(fields: map<string, Value>, g: map<string, Value>): map<string, Value> {
    map k | k in fields.Keys + g.Keys && (k in fields || g[k] != Null) ::
      if Fills(fields, g, k) then g[k] else fields[k]
  }

  /** The merge loop: for every key of the augmenter's fields, skip a null value and write the
      value over a missing key or a hole. */
  method MergeFields(fields: map<string, Value>, g: map<string, Value>) returns (out: map<string, Value>)
    ensures out == Merged(fields, g)
  {
    out := fields;
    var todo := g.Keys;
    MergedOverNone(fields, g);
    while todo != {}
      invariant todo <= g.Keys
      invariant out == MergedOver(fields, g, g.Keys - todo)
      decreases |todo|
    {
      var k :| k in todo;
      MergeStepAt(fields, g, todo, k, out);
      var v := g[k];
      // a null is skipped; a value lands on a missing key or a hole
      out := if v != Null && (k !in out || IsHole(out[k])) then out[k := v] else out;
      todo := todo - {k};
    }
    assert g.Keys - todo == g.Keys;
    MergedOverAll(fields, g);
  }

  /** The dictionary once the keys in `done` have been merged. */
  function MergedOver(fields: map<string, Value>, g: map<string, Value>, done: set<string>): map<string, Value> {
    map k | k in fields.Keys + (done * g.Keys) && (k in fields || g[k] != Null) ::
      if k in done && Fills(fields, g, k) then g[k] else fields[k]
  }

  /** Merging one more key writes the augmenter's value exactly when the loop body does. */
  lemma {:induction false} MergeStep(fields: map<string, Value>, g: map<string, Value>, done: set<string>, k: string)
    requires k in g && k !in done
    ensures var before := MergedOver(fields, g, done);
      MergedOver(fields, g, done + {k}) ==
        if g[k] != Null && (k !in before || IsHole(before[k])) then before[k := g[k]] else before
  {
    var before := MergedOver(fields, g, done);
    var after := MergedOver(fields, g, done + {k});
    assert k in before <==> k in fields;
    assert k in before ==> before[k] == fields[k];
    if g[k] != Null && (k !in before || IsHole(before[k])) {
      assert after.Keys == before.Keys + {k};
    } else {
      assert after.Keys == before.Keys;
    }
  }

  lemma {:induction false} MergeStepAt(fields: map<string, Value>, g: map<string, Value>, todo: set<string>, k: string,
                    before: map<string, Value>)
    requires todo <= g.Keys && k in todo && before == MergedOver(fields, g, g.Keys - todo)
    ensures MergedOver(fields, g, g.Keys - (todo - {k})) ==
      if g[k] != Null && (k !in before || IsHole(before[k])) then before[k := g[k]] else before
  {
    assert g.Keys - (todo - {k}) == (g.Keys - todo) + {k};
    MergeStep(fields, g, g.Keys - todo, k);
  }

  lemma {:induction false} MergedOverNone(fields: map<string, Value>, g: map<string, Value>)
    ensures MergedOver(fields, g, g.Keys - g.Keys) == fields
  {
    assert g.Keys - g.Keys == {};
    assert MergedOver(fields, g, {}).Keys == fields.Keys;
  }

  lemma {:induction false} MergedOverAll(fields: map<string, Value>, g: map<string, Value>)
    ensures MergedOver(fields, g, g.Keys) == Merged(fields, g)
  {
    assert MergedOver(fields, g, g.Keys).Keys == Merged(fields, g).Keys;
  }

  /** What the merge keeps and what it writes: a non-hole value is never overwritten, a
      null from the augmenter never lands, every written key carries the augmenter's value,
      and nothing is removed. */
  lemma {:induction false} MergedCorrect(fields: map<string, Value>, g: map<string, Value>)
    ensures fields.Keys <= Merged(fields, g).Keys
    ensures forall k :: k in fields && !IsHole(fields[k]) ==> Merged(fields, g)[k] == fields[k]
    ensures forall k :: k in Merged(fields, g) && k !in fields ==> k in g && Merged(fields, g)[k] == g[k] != Null
    ensures forall k :: k in Merged(fields, g) ==>
      (k in fields && Merged(fields, g)[k] == fields[k]) || (k in g && Merged(fields, g)[k] == g[k])
    ensures forall k :: k in g && g[k] != Null && (k !in fields || IsHole(fields[k])) ==> Merged(fields, g)[k] == g[k]
  {
  }

  /** Merging the same fields a second time changes nothing. */
  lemma {:induction false} MergeIdempotent(fields: map<string, Value>, g: map<string, Value>)
    ensures Merged(Merged(fields, g), g) == Merged(fields, g)
  {
    var m := Merged(fields, g);
    assert Merged(m, g).Keys == m.Keys;
    forall k | k in m
      ensures Merged(m, g)[k] == m[k]
    {
      if Fills(m, g, k) {
        assert Fills(fields, g, k);
      }
    }
  }

  /** Regular-expression values are never holes, so the augmenter only adds keys the regular
      expressions did not find. */
  lemma {:induction false} RegexFieldsSurvive(fields: map<string, Value>, g: map<string, Value>)
    requires forall k :: k in fields ==> Truthy(fields[k])
    ensures forall k :: k in fields ==> Merged(fields, g)[k] == fields[k]
  {
    MergedCorrect(fields, g);
  }

  // ---------------------------------------------------------------------------------------
  // Type override
  // ---------------------------------------------------------------------------------------

  /** `float(g_conf) if g_conf is not None else 0.0`, falling back to 0.0 on any exception.
      `parseFloat` is `float()` on a string, with `None` for the `ValueError`. */
  function ConfidenceOf(v: Value, parseFloat: string -> Option<real>): real {
    match v
    case Null => 0.0
    case Num(r) => r
    case Bool(b) => if b then 1.0 else 0.0
    case Str(s) => parseFloat(s).GetOr(0.0)
    case _ => 0.0
  }

  /** The detected type and confidence after the soft signal of the augmenter: a type name
      it reports replaces a rule-based guess below 0.65 when its confidence is at least as
      high, capped at 0.95. */
  function TypeOverride(payload: Value, detected: NormType, conf: real, parseFloat: string -> Option<real>): (NormType, real) {
    if !payload.Obj? then (detected, conf)
    else
      var gDetected := Get(payload.fields, "document_type_detected", Null);
      var gConf := Get(payload.fields, "type_confidence", Null);
      if gDetected.Str? && NormFromName(gDetected.s).Some? then
        var g := ConfidenceOf(gConf, parseFloat);
        if conf < 0.65 && g >= conf then (NormFromName(gDetected.s).value, if g < 0.95 then g else 0.95)
        else (detected, conf)
      else (detected, conf)
  }

  /** The override happens only on a weak guess, adopts the type the augmenter named, never
      lowers the confidence and never raises it above 0.95; a confident guess is kept. */
  lemma {:induction false} TypeOverrideBounds(payload: Value, detected: NormType, conf: real, parseFloat: string -> Option<real>)
    ensures var (d, c) := TypeOverride(payload, detected, conf, parseFloat);
      (d, c) != (detected, conf) ==>
        && conf < 0.65 && conf <= c <= 0.95
        && payload.Obj? && "document_type_detected" in payload.fields
        && payload.fields["document_type_detected"] == Str(NormName(d))
    ensures conf >= 0.65 ==> TypeOverride(payload, detected, conf, parseFloat) == (detected, conf)
  {
  }

  /** With the rule-based classifier behind `detected`, only a text that hit no keyword at all
      can have its type replaced. */
  lemma {:induction false} OverrideOnlyWithoutHits(text: string, payload: Value, parseFloat: string -> Option<real>)
    requires Classifier.Hits(|Classifier.Categories|, Lower(text)) != []
    ensures var hits := Classifier.Hits(|Classifier.Categories|, Lower(text));
      var detected := hits[Classifier.FirstMaxIndex(hits)].0;
      var conf := Classifier.Confidence(Classifier.MaxCount(hits), Classifier.SecondBest(hits));
      TypeOverride(payload, detected, conf, parseFloat) == (detected, conf)
  {
    Classifier.DetectionBounds(text);
  }

  /** Step 4 of `verify_document` and the override after it, on the regular-expression fields
      and the rule-based guess. */
  method Augment(fields: map<string, Value>, detected: NormType, conf: real, payload: Value,
                 parseFloat: string -> Option<real>)
    returns (merged: map<string, Value>, detected': NormType, conf': real)
    ensures PayloadFields(payload).Some? ==> merged == Merged(fields, PayloadFields(payload).value)
    ensures PayloadFields(payload).None? ==> merged == fields
    ensures (detected', conf') == TypeOverride(payload, detected, conf, parseFloat)
  {
    merged := fields;
    var g := PayloadFields(payload);
    if g.Some? {
      merged := MergeFields(fields, g.value);
    }
    var decision := TypeOverride(payload, detected, conf, parseFloat);
    detected', conf' := decision.0, decision.1;
  }
}

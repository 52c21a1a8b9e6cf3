/**
 * Turning the model's reply into a task record: the part of `handleSubmit`
 * that runs once the endpoint's JSON body `data` has arrived.
 */
module Merge {
  import opened Wrappers
  import opened Tasks
  import opened Json
  import opened Extract

  /** Shown when the chosen text is not JSON, or reading a field of a null item throws. */
  const ParseError: string := "Failed to parse Gemini response. Please try again."

  /** Shown when the request fails as a whole (here: `data` is null). */
  const RequestError: string := "Failed to prioritize tasks. Please try again."

  /**
   * The record the merge builds. Buckets hold whatever truthy value the reply
   * carried under the bucket's key; nothing checks that it is a list of strings.
   */
  type Parsed = PriorityTasks<Json>

  /** `let parsedResponse = { highPriority: [], mediumPriority: [], lowPriority: [] }` */
  const Initial: Parsed := PriorityTasks(JArray([]), JArray([]), JArray([]))

  /** `if (x.key) parsedResponse.key = x.key;` for one bucket. */
  function Pick(acc: Parsed, x: Json, p: Priority): (r: Json)
    ensures TruthyField(x, KeyName(p)) ==> x.JObject? && r == x.fields[KeyName(p)]
    ensures !TruthyField(x, KeyName(p)) ==> r == acc.Get(p)
  {
    if TruthyField(x, KeyName(p)) then Field(x, KeyName(p)).value else acc.Get(p)
  }

  /** The three guarded assignments, applied to one non-null value `x`. */
  function Overwrite(acc: Parsed, x: Json): (r: Parsed)
    ensures forall p :: r.Get(p) == if TruthyField(x, KeyName(p)) then x.fields[KeyName(p)] else acc.Get(p)
  {
    PriorityTasks(Pick(acc, x, High), Pick(acc, x, Medium), Pick(acc, x, Low))
  }

  /** Index of the last item whose field `key` is truthy, or -1 if there is none. */
  function LastTruthy(items: seq<Json>, key: string): (i: int)
    ensures -1 <= i < |items|
    ensures 0 <= i ==> TruthyField(items[i], key)
    ensures forall k :: i < k < |items| ==> !TruthyField(items[k], key)
  {
    if |items| == 0 then -1
    else if TruthyField(items[|items| - 1], key) then |items| - 1
    else LastTruthy(items[..|items| - 1], key)
  }

  /**
   * The bucket after a scan of `items`, stated without the scan: the value
   * under the bucket's key in the last item where it is truthy (last one
   * wins), or the initial empty array when no item has it.
   */
  function BucketAfter(items: seq<Json>, p: Priority): Json
  {
    var i := LastTruthy(items, KeyName(p));
    if i == -1 then JArray([]) else Field(items[i], KeyName(p)).value
  }

  /** The record after a scan of `items`, bucket by bucket. */
  function MergedFrom(items: seq<Json>): (r: Parsed)
    ensures forall p :: r.Get(p) == BucketAfter(items, p)
  {
    PriorityTasks(BucketAfter(items, High), BucketAfter(items, Medium), BucketAfter(items, Low))
  }

  /** How many items `forEach` gets through before a null item makes `item.highPriority` throw. */
  function UntilNull(items: seq<Json>): (n: nat)
    ensures n <= |items|
    ensures JNull !in items[..n]
    ensures n < |items| ==> items[n] == JNull
    ensures n == |items| <==> JNull !in items
  {
    if |items| == 0 then 0
    else if items[0] == JNull then 0
    else
      var n := UntilNull(items[1..]);
      assert items[..n + 1] == [items[0]] + items[1..][..n];
      n + 1
  }

  /** Scanning one more item is one more Overwrite. */
  lemma MergeStep(items: seq<Json>, i: nat)
    requires i < |items|
    ensures MergedFrom(items[..i + 1]) == Overwrite(MergedFrom(items[..i]), items[i])
  {
    assert items[..i + 1][..i] == items[..i];
  }

  /** A single object is merged exactly as an array holding just that object. */
  lemma ObjectAsSingleton(x: Json)
    ensures Overwrite(Initial, x) == MergedFrom([x])
  {
    MergeStep([x], 0);
    assert [x][..0] == [];
  }

  /**
   * `parsed.forEach(item => { ...three guarded assignments... })`, which stops
   * with a thrown TypeError at the first null item, keeping what the earlier
   * items wrote.
   */
  method MergeArray(items: seq<Json>) returns (merged: Parsed, threw: bool)
    ensures threw <==> JNull in items
    ensures merged == MergedFrom(items[..UntilNull(items)])
  {
    merged, threw := Initial, false;
    var i := 0;
    while i < |items|
      invariant 0 <= i <= |items|
      invariant JNull !in items[..i]
      invariant merged == MergedFrom(items[..i])
    {
      var item := items[i];
      if item == JNull {
        threw := true;
        break;
      }
      MergeStep(items, i);
      merged := Overwrite(merged, item);
      i := i + 1;
    }
    if !threw {
      assert items[..i] == items;
    }
  }

  /** The string in `data.text`, when `data` is an object whose `text` is a string. */
  function ReplyText(data: Json): (r: Option<string>)
    ensures r.Some? <==> data.JObject? && "text" in data.fields && data.fields["text"].JString?
    ensures r.Some? ==> r.value == data.fields["text"].s
  {
    match data
    case JObject(fields) =>
      if "text" in fields && fields["text"].JString? then Some(fields["text"].s) else None
    case _ => None
  }

  /** What the submit handler leaves behind: the new record, if it sets one, and the error banner text. */
  datatype Outcome = Outcome(response: Option<Parsed>, error: string)

  /**
   * From the endpoint's JSON body to the new board state (lines 129-165) and
   * the error banner; `parse` stands for `JSON.parse`, None meaning it threw.
   */
  method HandleResponse(data: Json, parse: string -> Option<Json>) returns (out: Outcome)
    // data === null: reading data.text throws, the outer handler reports the
    // request as failed and the record is not replaced
    ensures data == JNull ==> out == Outcome(None, RequestError)
    // no string reply: the record is replaced by three empty buckets, no error
    ensures data != JNull && ReplyText(data).None? ==> out == Outcome(Some(Initial), "")
    // unparsable reply: three empty buckets and the parse error
    ensures ReplyText(data).Some? && parse(JsonText(ReplyText(data).value)).None? ==>
      out == Outcome(Some(Initial), ParseError)
    // an array: each bucket is the last truthy value under its key, or empty;
    // a null item stops the scan and raises the parse error
    ensures ReplyText(data).Some? && parse(JsonText(ReplyText(data).value)).Some? ==>
      var parsed := parse(JsonText(ReplyText(data).value)).value;
      parsed.JArray? ==>
        && out.response == Some(MergedFrom(parsed.items[..UntilNull(parsed.items)]))
        && out.error == (if JNull in parsed.items then ParseError else "")
    // an object: each bucket takes the object's field when truthy, else stays empty
    ensures ReplyText(data).Some? && parse(JsonText(ReplyText(data).value)).Some? ==>
      var parsed := parse(JsonText(ReplyText(data).value)).value;
      parsed.JObject? ==>
        && out.response.Some? && out.error == ""
        && forall p :: out.response.value.Get(p) ==
             if TruthyField(parsed, KeyName(p)) then parsed.fields[KeyName(p)] else JArray([])
    // null, a boolean, a number or a string: three empty buckets, no error
    ensures ReplyText(data).Some? && parse(JsonText(ReplyText(data).value)).Some? ==>
      var parsed := parse(JsonText(ReplyText(data).value)).value;
      !parsed.JArray? && !parsed.JObject? ==> out == Outcome(Some(Initial), "")
  {
    if data == JNull {
      return Outcome(None, RequestError);
    }
    var parsedResponse := Initial;
    var error := "";
    var text := ReplyText(data);
    if text.Some? {
      var jsonText := JsonText(text.value);
      var parsed := parse(jsonText);
      match parsed {
        case None =>
          error := ParseError;
        case Some(JArray(items)) =>
          var threw;
          parsedResponse, threw := MergeArray(items);
          if threw {
            error := ParseError;
          }
        case Some(JObject(_)) =>
          parsedResponse := Overwrite(Initial, parsed.value);
        case Some(_) =>
      }
    }
    out := Outcome(Some(parsedResponse), error);
  }

  /** The labels of an array of strings. */
  function StringsOf(items: seq<Json>): (r: Option<seq<string>>)
    ensures r.Some? <==> forall k :: 0 <= k < |items| ==> items[k].JString?
    ensures r.Some? ==> |r.value| == |items|
                        && forall k :: 0 <= k < |items| ==> items[k] == JString(r.value[k])
  {
    if |items| == 0 then Some([])
    else if !items[0].JString? then None
    else
      var rest := StringsOf(items[1..]);
      if rest.None? then None else Some([items[0].s] + rest.value)
  }

  /** The labels of a bucket that holds an array of strings, as the board declares it. */
  function Strings(v: Json): (r: Option<seq<string>>)
  {
    if v.JArray? then StringsOf(v.items) else None
  }

  /**
   * The merged record read as the board's declared type: defined exactly when
   * every bucket holds an array of strings.
   */
  function ToTaskSet(r: Parsed): (t: Option<TaskSet>)
    ensures t.Some? <==> forall p :: Strings(r.Get(p)).Some?
    ensures t.Some? ==> forall p :: Strings(r.Get(p)) == Some(t.value.Get(p))
  {
    var h, m, l := Strings(r.highPriority), Strings(r.mediumPriority), Strings(r.lowPriority);
    if h.Some? && m.Some? && l.Some? then Some(PriorityTasks(h.value, m.value, l.value))
    else
      assert !Strings(r.Get(if h.None? then High else if m.None? then Medium else Low)).Some?;
      None
  }

  /**
   * The reply shape the prompt asks for, one single-key object per bucket,
   * merges into the three lists it carries; an empty array is truthy, so
   * `[]` under a key still overwrites.
   */
  lemma PromptShapeExample()
    ensures var items := [
        JObject(map["highPriority" := JArray([JString("A")])]),
        JObject(map["mediumPriority" := JArray([JString("B"), JString("C")])]),
        JObject(map["lowPriority" := JArray([])])
      ];
      && MergedFrom(items) == PriorityTasks(JArray([JString("A")]), JArray([JString("B"), JString("C")]), JArray([]))
      && ToTaskSet(MergedFrom(items)) == Some(PriorityTasks(["A"], ["B", "C"], []))
  {
    var items := [
        JObject(map["highPriority" := JArray([JString("A")])]),
        JObject(map["mediumPriority" := JArray([JString("B"), JString("C")])]),
        JObject(map["lowPriority" := JArray([])])
      ];
    assert LastTruthy(items, "lowPriority") == 2;
    assert LastTruthy(items, "mediumPriority") == 1 by {
      assert !TruthyField(items[2], "mediumPriority");
      assert items[..2][1] == items[1];
    }
    assert LastTruthy(items, "highPriority") == 0 by {
      assert !TruthyField(items[2], "highPriority");
      assert !TruthyField(items[1], "highPriority");
      assert items[..2][..1] == items[..1];
    }
    var bc := StringsOf([JString("B"), JString("C")]);
    assert bc.Some? && |bc.value| == 2 && JString(bc.value[0]) == JString("B") && JString(bc.value[1]) == JString("C");
    assert bc.value == ["B", "C"];
    var a := StringsOf([JString("A")]);
    assert a.Some? && |a.value| == 1 && JString(a.value[0]) == JString("A");
    assert a.value == ["A"];
  }

  /** A bare object with one key fills that bucket and leaves the others empty. */
  lemma BareObjectExample()
    ensures ToTaskSet(Overwrite(Initial, JObject(map["highPriority" := JArray([JString("X")])])))
            == Some(PriorityTasks(["X"], [], []))
  {
    var x := JObject(map["highPriority" := JArray([JString("X")])]);
    assert !TruthyField(x, "mediumPriority") && !TruthyField(x, "lowPriority");
    assert Overwrite(Initial, x) == PriorityTasks(JArray([JString("X")]), JArray([]), JArray([]));
    var r := StringsOf([JString("X")]);
    assert r.Some? && |r.value| == 1 && JString(r.value[0]) == JString("X");
    assert r.value == ["X"];
  }

  /** A falsy value under a key (here an empty string) leaves the bucket as it was. */
  lemma FalsyFieldIgnored()
    ensures MergedFrom([JObject(map["highPriority" := JArray([JString("A")])]),
                        JObject(map["highPriority" := JString("")])]).highPriority
            == JArray([JString("A")])
  {
    var items := [JObject(map["highPriority" := JArray([JString("A")])]), JObject(map["highPriority" := JString("")])];
    assert items[..1] == [items[0]];
  }
}

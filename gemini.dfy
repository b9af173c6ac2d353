/**
 * GeminiAPI.py: which prompt variants a comparison runs, what each variant
 * asks for, how a failed variant becomes data, and how the per-variant
 * results are assembled.
 *
 * The remote model is an oracle `llm` from a request to a `Reply`: either the
 * parsed JSON of the model's answer, or the message of the exception raised
 * by the call or by `json.loads`. Uploaded documents are opaque references.
 */
module Gemini {
  import opened Wrappers
  import opened Json
  import PyStr

  /** The two built-in prompt templates; only which one is chosen is modelled, not their wording. */
  datatype Template = InvoiceTemplate | ContractTemplate

  /** The JSON layout a prompt asks the model to answer in. */
  datatype Shape =
    | NestedShape  // {"differences": {"header_differences": [...], "line_item_differences": [...]}}
    | FlatShape    // {"differences": [...]}

  function TemplateShape(t: Template): Shape
  {
    match t
    case InvoiceTemplate => NestedShape
    case ContractTemplate => FlatShape
  }

  /** `get_default_prompt`: the invoice template for exactly "Invoices", the contract template otherwise. */
  function DefaultPrompt(docType: string): (t: Template)
    ensures t == InvoiceTemplate <==> docType == "Invoices"
    ensures TemplateShape(t) == NestedShape <==> docType == "Invoices"
  {
    if docType == "Invoices" then InvoiceTemplate else ContractTemplate
  }

  /**
   * A prompt sent to the model: the user's stripped instructions followed by
   * the fixed directive demanding the flat shape, or a built-in template.
   */
  datatype Prompt = CustomPrompt(instructions: string) | TemplatePrompt(template: Template)

  function RequestedShape(p: Prompt): Shape
  {
    match p
    case CustomPrompt(_) => FlatShape
    case TemplatePrompt(t) => TemplateShape(t)
  }

  /** `custom_prompt and custom_prompt.strip()`: a custom prompt was given and is not all whitespace. */
  predicate HasCustomText(customPrompt: Option<string>)
  {
    customPrompt.Some? && customPrompt.value != "" && PyStr.Strip(customPrompt.value) != ""
  }

  /** Custom text is given exactly when the prompt is not None and not all whitespace (the empty text included). */
  lemma HasCustomTextIffNotBlank(customPrompt: Option<string>)
    ensures HasCustomText(customPrompt) <==> customPrompt.Some? && !PyStr.IsBlank(customPrompt.value)
  {
    if customPrompt.Some? {
      PyStr.StripEmptyIffBlank(customPrompt.value);
    }
  }

  /**
   * The custom variant's prompt. Whatever the document type, it asks for the
   * flat shape, and the user's text enters it with no surrounding whitespace.
   */
  function WrapCustomPrompt(customText: string): (p: Prompt)
    requires PyStr.Strip(customText) != ""
    ensures RequestedShape(p) == FlatShape
    ensures p.CustomPrompt? && p.instructions == PyStr.Strip(customText) && p.instructions != []
  {
    CustomPrompt(PyStr.Strip(customText))
  }

  /** The user's text enters the custom prompt with no whitespace left at either end. */
  lemma CustomInstructionsTrimmed(customText: string)
    requires PyStr.Strip(customText) != ""
    ensures PyStr.Trimmed(WrapCustomPrompt(customText).instructions)
  {
    PyStr.StripEnds(customText);
  }

  /** The two prompt variants of one comparison. */
  datatype Variant = CustomVariant | DefaultVariant

  /** The key a variant's result is stored under in `results`. */
  function VariantKey(v: Variant): string
  {
    match v
    case CustomVariant => "custom"
    case DefaultVariant => "default"
  }

  /** The label that opens a variant's error message. */
  function VariantLabel(v: Variant): string
  {
    match v
    case CustomVariant => "Custom"
    case DefaultVariant => "Default"
  }

  /**
   * The variants `compare_pdfs` runs, in the order it runs them: the custom
   * one when custom text was given, the default one when asked to include it
   * or when there is no custom text.
   */
  function Schedule(customPrompt: Option<string>, includeDefault: bool): (vs: seq<Variant>)
    ensures 1 <= |vs| <= 2
    ensures CustomVariant in vs <==> HasCustomText(customPrompt)
    ensures DefaultVariant in vs <==> includeDefault || !HasCustomText(customPrompt)
    ensures |vs| == 2 ==> vs == [CustomVariant, DefaultVariant]
  {
    (if HasCustomText(customPrompt) then [CustomVariant] else [])
    + (if includeDefault || !HasCustomText(customPrompt) then [DefaultVariant] else [])
  }

  /** An opaque reference to a document uploaded to the model service. */
  datatype DocRef = DocRef(uri: string)

  /** One `send_message([file1, file2, prompt])` call. */
  datatype Request = Request(file1: DocRef, file2: DocRef, prompt: Prompt)

  /** The parsed answer to a request, or the message of the exception that stopped it. */
  type Reply = Result<Json, string>

  /** The prompt a scheduled variant sends. */
  function PromptFor(v: Variant, docType: string, customPrompt: Option<string>): Prompt
    requires v == CustomVariant ==> HasCustomText(customPrompt)
  {
    match v
    case CustomVariant =>
      WrapCustomPrompt(customPrompt.value)
    case DefaultVariant => TemplatePrompt(DefaultPrompt(docType))
  }

  /** The error sentinel stored for a variant whose call or parse raised `msg`. */
  function Sentinel(v: Variant, msg: string): Json
  {
    JObj(map["differences" := JArr([]), "error" := JStr(VariantLabel(v) + " prompt error: " + msg)])
  }

  /**
   * The sentinel is a dictionary with exactly the keys "differences" and
   * "error"; its difference list is empty; its message opens with the
   * variant's label and ends with the exception's text, so the sentinels of
   * the two variants never coincide.
   */
  lemma SentinelShape(v: Variant, msg: string)
    ensures var j := Sentinel(v, msg);
            && j.JObj? && j.fields.Keys == {"differences", "error"}
            && j.fields["differences"] == JArr([]) && j.fields["error"].JStr?
            && VariantLabel(v) <= j.fields["error"].s
            && var e := j.fields["error"].s; |msg| <= |e| && e[|e| - |msg|..] == msg
    ensures forall msg' :: Sentinel(CustomVariant, msg) != Sentinel(DefaultVariant, msg')
  {
    var e := VariantLabel(v) + " prompt error: " + msg;
    assert e[|e| - |msg|..] == msg;
    forall msg' ensures Sentinel(CustomVariant, msg) != Sentinel(DefaultVariant, msg') {
      var c := Sentinel(CustomVariant, msg).fields["error"].s;
      var d := Sentinel(DefaultVariant, msg').fields["error"].s;
      assert c[0] != d[0];
    }
  }

  /** What the try/except around one variant stores: the parsed answer unchanged, or a record with no differences. */
  function Outcome(v: Variant, reply: Reply): (j: Json)
    ensures reply.Success? ==> j == reply.value
    ensures reply.Failure? ==> j.JObj? && Get(j.fields, "differences") == JArr([]) && "error" in j.fields
  {
    match reply
    case Success(j) => j
    case Failure(msg) => Sentinel(v, msg)
  }

  /** The request variant `v` sends in a comparison of `file1` and `file2`. */
  function RequestFor(v: Variant, file1: DocRef, file2: DocRef, docType: string, customPrompt: Option<string>): Request
    requires v == CustomVariant ==> HasCustomText(customPrompt)
  {
    Request(file1, file2, PromptFor(v, docType, customPrompt))
  }

  /** What variant `v` contributes to the result. */
  function VariantResult(v: Variant, file1: DocRef, file2: DocRef, docType: string,
                         customPrompt: Option<string>, llm: Request -> Reply): Json
    requires v == CustomVariant ==> HasCustomText(customPrompt)
  {
    Outcome(v, llm(RequestFor(v, file1, file2, docType, customPrompt)))
  }

  /**
   * The value `compare_pdfs` returns (before `json.dumps`): the result of the
   * one variant that ran, bare, or both results keyed "custom" and "default".
   */
  function Compare(file1: DocRef, file2: DocRef, docType: string, customPrompt: Option<string>,
                   includeDefault: bool, llm: Request -> Reply): Json
  {
    if !HasCustomText(customPrompt) then
      VariantResult(DefaultVariant, file1, file2, docType, customPrompt, llm)
    else if !includeDefault then
      VariantResult(CustomVariant, file1, file2, docType, customPrompt, llm)
    else
      JObj(map["custom" := VariantResult(CustomVariant, file1, file2, docType, customPrompt, llm),
               "default" := VariantResult(DefaultVariant, file1, file2, docType, customPrompt, llm)])
  }

  /** With no custom text only the default variant runs, and its result comes back bare. */
  lemma BlankCustomGivesBareDefault(file1: DocRef, file2: DocRef, docType: string, customPrompt: Option<string>,
                                    includeDefault: bool, llm: Request -> Reply)
    requires !HasCustomText(customPrompt)
    ensures Schedule(customPrompt, includeDefault) == [DefaultVariant]
    ensures Compare(file1, file2, docType, customPrompt, includeDefault, llm)
            == Outcome(DefaultVariant, llm(Request(file1, file2, TemplatePrompt(DefaultPrompt(docType)))))
  {
  }

  /** With custom text and the default excluded only the custom variant runs, and its result comes back bare. */
  lemma CustomOnlyGivesBareCustom(file1: DocRef, file2: DocRef, docType: string, customText: string,
                                  llm: Request -> Reply)
    requires HasCustomText(Some(customText))
    ensures Schedule(Some(customText), false) == [CustomVariant]
    ensures Compare(file1, file2, docType, Some(customText), false, llm)
            == Outcome(CustomVariant, llm(Request(file1, file2, CustomPrompt(PyStr.Strip(customText)))))
  {
  }

  /** With custom text and the default included, the result has exactly the keys "custom" and "default". */
  lemma BothGiveKeyedPair(file1: DocRef, file2: DocRef, docType: string, customText: string,
                          llm: Request -> Reply)
    requires HasCustomText(Some(customText))
    ensures Schedule(Some(customText), true) == [CustomVariant, DefaultVariant]
    ensures var r := Compare(file1, file2, docType, Some(customText), true, llm);
            r.JObj? && r.fields.Keys == {"custom", "default"}
  {
  }

  /**
   * The result follows the schedule: a single scheduled variant's result is
   * returned bare, and two scheduled variants give a dictionary whose keys are
   * exactly theirs, each holding that variant's own result. So the result is
   * never the empty dictionary.
   */
  lemma CompareFollowsSchedule(file1: DocRef, file2: DocRef, docType: string, customPrompt: Option<string>,
                               includeDefault: bool, llm: Request -> Reply)
    ensures var vs := Schedule(customPrompt, includeDefault);
            var r := Compare(file1, file2, docType, customPrompt, includeDefault, llm);
            && (|vs| == 1 ==> r == VariantResult(vs[0], file1, file2, docType, customPrompt, llm))
            && (|vs| == 2 ==>
                  && r.JObj?
                  && r.fields.Keys == {VariantKey(vs[0]), VariantKey(vs[1])}
                  && (forall i :: 0 <= i < 2 ==>
                        r.fields[VariantKey(vs[i])] == VariantResult(vs[i], file1, file2, docType, customPrompt, llm)))
  {
    if !HasCustomText(customPrompt) {
      BlankCustomGivesBareDefault(file1, file2, docType, customPrompt, includeDefault, llm);
    } else if !includeDefault {
      CustomOnlyGivesBareCustom(file1, file2, docType, customPrompt.value, llm);
    } else {
      BothGiveKeyedPair(file1, file2, docType, customPrompt.value, llm);
      assert "custom"[0] != "default"[0];
    }
  }

  /** The requests a comparison sends, in order: the custom one (if scheduled) before the default one.
      `Requests`, `Entries` and `ComparePdfs` spell out the two guarded blocks of `compare_pdfs`
      rather than mapping over `Schedule`: the mapped form made the proofs about `Compare` too
      costly for the solver. The ensures below tie this list back to `Schedule` element by element. */
  function Requests(file1: DocRef, file2: DocRef, docType: string, customPrompt: Option<string>,
                    includeDefault: bool): (rs: seq<Request>)
    ensures |rs| == |Schedule(customPrompt, includeDefault)|
    ensures forall i :: 0 <= i < |rs| ==> rs[i].file1 == file1 && rs[i].file2 == file2
    ensures forall i :: 0 <= i < |rs| ==>
              var v := Schedule(customPrompt, includeDefault)[i];
              rs[i].prompt == if v == CustomVariant then WrapCustomPrompt(customPrompt.value) else TemplatePrompt(DefaultPrompt(docType))
  {
    (if HasCustomText(customPrompt) then [RequestFor(CustomVariant, file1, file2, docType, customPrompt)] else [])
    + (if includeDefault || !HasCustomText(customPrompt)
       then [RequestFor(DefaultVariant, file1, file2, docType, customPrompt)] else [])
  }

  /** The entries of `results` once both guarded blocks of `compare_pdfs` have run. */
  ghost function Entries(file1: DocRef, file2: DocRef, docType: string, customPrompt: Option<string>,
                         includeDefault: bool, llm: Request -> Reply): map<string, Json>
  {
    var custom := if HasCustomText(customPrompt)
                  then map["custom" := VariantResult(CustomVariant, file1, file2, docType, customPrompt, llm)]
                  else map[];
    if includeDefault || !HasCustomText(customPrompt)
    then custom["default" := VariantResult(DefaultVariant, file1, file2, docType, customPrompt, llm)]
    else custom
  }

  /** Returning a single entry bare and several entries as a dictionary gives `Compare`. */
  lemma EntriesCollapse(file1: DocRef, file2: DocRef, docType: string, customPrompt: Option<string>,
                        includeDefault: bool, llm: Request -> Reply)
    ensures var m := Entries(file1, file2, docType, customPrompt, includeDefault, llm);
            var r := Compare(file1, file2, docType, customPrompt, includeDefault, llm);
            && (|m| == 1 ==> forall k :: k in m ==> m[k] == r)
            && (|m| != 1 ==> JObj(m) == r)
  {
    var m := Entries(file1, file2, docType, customPrompt, includeDefault, llm);
    if HasCustomText(customPrompt) && includeDefault {
      assert "custom"[0] != "default"[0];
      assert |m| == 2;
    } else {
      assert m.Keys == {if HasCustomText(customPrompt) then "custom" else "default"};
    }
  }

  /**
   * `compare_pdfs`: fills `results` variant by variant, each call guarded by
   * its own try/except, then returns the single entry bare or the whole map.
   */
  method ComparePdfs(file1: DocRef, file2: DocRef, docType: string, customPrompt: Option<string>,
                     includeDefault: bool, llm: Request -> Reply)
    returns (result: Json, sent: seq<Request>)
    ensures result == Compare(file1, file2, docType, customPrompt, includeDefault, llm)
    ensures sent == Requests(file1, file2, docType, customPrompt, includeDefault)
  {
    var results: map<string, Json> := map[];
    sent := [];
    var hasCustom := HasCustomText(customPrompt);

    if hasCustom {
      var request := RequestFor(CustomVariant, file1, file2, docType, customPrompt);
      sent := sent + [request];
      var customResult := Outcome(CustomVariant, llm(request));
      results := results["custom" := customResult];
    }

    if includeDefault || !hasCustom {
      var request := RequestFor(DefaultVariant, file1, file2, docType, customPrompt);
      sent := sent + [request];
      var defaultResult := Outcome(DefaultVariant, llm(request));
      results := results["default" := defaultResult];
    }

    assert results == Entries(file1, file2, docType, customPrompt, includeDefault, llm);
    EntriesCollapse(file1, file2, docType, customPrompt, includeDefault, llm);
    if |results| == 1 {
      var key :| key in results;
      result := results[key];
    } else {
      result := JObj(results);
    }
  }

  /**
   * A variant that raises does not stop the other: with both variants
   * scheduled, a failed custom call is stored as its sentinel and the default
   * entry still holds the default call's own outcome, and vice versa.
   */
  lemma FailureIsolated(file1: DocRef, file2: DocRef, docType: string, customText: string,
                        llm: Request -> Reply)
    requires HasCustomText(Some(customText))
    ensures var r := Compare(file1, file2, docType, Some(customText), true, llm);
            var customReply := llm(RequestFor(CustomVariant, file1, file2, docType, Some(customText)));
            var defaultReply := llm(RequestFor(DefaultVariant, file1, file2, docType, Some(customText)));
            && (customReply.Failure? ==> r.fields["custom"] == Sentinel(CustomVariant, customReply.error))
            && (defaultReply.Failure? ==> r.fields["default"] == Sentinel(DefaultVariant, defaultReply.error))
            && (customReply.Success? ==> r.fields["custom"] == customReply.value)
            && (defaultReply.Success? ==> r.fields["default"] == defaultReply.value)
  {
  }
}

/**
 * main.py, `display_results` and the dual/single dispatch: how a stored
 * comparison result is classified and turned into tables. Rendering itself
 * (headings, styling, DataFrames) is not modelled; a `View` says which of the
 * outcomes is shown and what rows each table holds.
 */
module Display {
  import opened Wrappers
  import opened Json
  import Gemini

  /**
   * One table row. `sNo` is the "S.No" column; `itemIndex` is present only in
   * line-item tables; a key missing from the difference record reads as "".
   */
  datatype Row = Row(sNo: nat, itemIndex: Option<Json>, field: Json, file1: Json, file2: Json)

  /** What `display_results` shows for one result. */
  datatype View =
    | NoDifferences
      /** Header and line-item tables of an invoice; an empty table is one that is not drawn. */
    | InvoiceTables(header: seq<Row>, lineItems: seq<Row>)
    | FlatTable(rows: seq<Row>)
    | UnexpectedFormat
      /** The render raises: the result is not a dictionary, or a difference list is not a list of dictionaries. */
    | RenderError

  /**
   * What the display block draws before it ends or raises. A raise ends the
   * rerun, so nothing after it is drawn: with `default == None` the custom tab
   * raised and the default tab stayed empty.
   */
  datatype Screen =
    | Tabs(custom: View, default: Option<View>)  // "Custom Prompt" and "Default Prompt" tabs
    | Single(view: View)                         // the result shown on its own
    | KeyTestError                               // `"custom" in differences` raised on a number or boolean

  /** The display block ran to its end without raising, so the buttons after it are drawn. */
  predicate Completes(s: Screen)
  {
    match s
    case Tabs(_, default) => default.Some? && default.value != RenderError
    case Single(view) => view != RenderError
    case KeyTestError => false
  }

  /** `item.get(key, "")`. */
  function Cell(item: map<string, Json>, key: string): Json
  {
    GetOr(item, key, JStr(""))
  }

  /**
   * The rows built by enumerating `items`: one per record, in order, numbered
   * from 1, each column read with a default of "". `None` when some record is
   * not a dictionary, where the comprehension raises on `item.get`.
   */
  function Tabulate(items: seq<Json>, withIndex: bool): (rows: Option<seq<Row>>)
    ensures rows.Some? <==> forall i :: 0 <= i < |items| ==> items[i].JObj?
    ensures rows.Some? ==> |rows.value| == |items|
    ensures rows.Some? ==> forall i :: 0 <= i < |items| ==>
              && rows.value[i].sNo == i + 1
              && rows.value[i].field == Cell(items[i].fields, "field")
              && rows.value[i].file1 == Cell(items[i].fields, "file1_value")
              && rows.value[i].file2 == Cell(items[i].fields, "file2_value")
              && rows.value[i].itemIndex == (if withIndex then Some(Cell(items[i].fields, "item_index")) else None)
  {
    if items == [] then Some([])
    else
      var last := items[|items| - 1];
      var front := Tabulate(items[..|items| - 1], withIndex);
      if front.None? || !last.JObj? then None
      else
        var index := if withIndex then Some(Cell(last.fields, "item_index")) else None;
        var row := Row(|items|, index, Cell(last.fields, "field"),
                       Cell(last.fields, "file1_value"), Cell(last.fields, "file2_value"));
        Some(front.value + [row])
  }

  /** Enumerating a truthy value: only a list yields records; anything else raises. */
  function TableOf(diffs: Json, withIndex: bool): Option<seq<Row>>
  {
    if diffs.JArr? then Tabulate(diffs.items, withIndex) else None
  }

  /** `result_data.get("differences")` on a dictionary result. */
  function Differences(result: Json): Json
    requires result.JObj?
  {
    Get(result.fields, "differences")
  }

  /** The nested invoice branch is taken: an invoice whose differences are a dictionary. */
  predicate IsNested(result: Json, docType: string)
    requires result.JObj?
  {
    docType == "Invoices" && Differences(result).JObj?
  }

  /** `differences.get("header_differences", [])` in the nested branch. */
  function HeaderDiffs(result: Json): Json
    requires result.JObj? && Differences(result).JObj?
  {
    GetOr(Differences(result).fields, "header_differences", JArr([]))
  }

  /** `differences.get("line_item_differences", [])` in the nested branch. */
  function LineItemDiffs(result: Json): Json
    requires result.JObj? && Differences(result).JObj?
  {
    GetOr(Differences(result).fields, "line_item_differences", JArr([]))
  }

  /** `display_results(result_data, doc_type)`. */
  function Show(result: Json, docType: string): (v: View)
    ensures v.InvoiceTables? ==> result.JObj? && IsNested(result, docType) && (v.header != [] || v.lineItems != [])
    ensures v.InvoiceTables? ==>
              && (Truthy(HeaderDiffs(result)) ==> TableOf(HeaderDiffs(result), false) == Some(v.header))
              && (v.header != [] <==> Truthy(HeaderDiffs(result)))
              && (Truthy(LineItemDiffs(result)) ==> TableOf(LineItemDiffs(result), true) == Some(v.lineItems))
              && (v.lineItems != [] <==> Truthy(LineItemDiffs(result)))
    ensures v.FlatTable? ==>
              && result.JObj? && !IsNested(result, docType) && Differences(result).JArr?
              && v.rows != [] && Tabulate(Differences(result).items, false) == Some(v.rows)
    ensures v == UnexpectedFormat <==>
              result.JObj? && !IsNested(result, docType)
              && Truthy(Differences(result)) && !Differences(result).JArr?
    ensures result.JObj? && !IsNested(result, docType) ==>
              (v == NoDifferences <==> !Truthy(Differences(result)))
    ensures result.JObj? && IsNested(result, docType) ==>
              (v == NoDifferences <==> !Truthy(HeaderDiffs(result)) && !Truthy(LineItemDiffs(result)))
    ensures v == RenderError <==>
              || !result.JObj?
              || (&& IsNested(result, docType)
                  && ((Truthy(HeaderDiffs(result)) && TableOf(HeaderDiffs(result), false).None?)
                      || (Truthy(LineItemDiffs(result)) && TableOf(LineItemDiffs(result), true).None?)))
              || (&& !IsNested(result, docType) && Truthy(Differences(result)) && Differences(result).JArr?
                  && Tabulate(Differences(result).items, false).None?)
  {
    if !result.JObj? then RenderError
    else
      var diffs := Differences(result);
      if IsNested(result, docType) then
        var header := HeaderDiffs(result);
        var lines := LineItemDiffs(result);
        if !Truthy(header) && !Truthy(lines) then NoDifferences
        else
          var headerRows := if Truthy(header) then TableOf(header, false) else Some([]);
          var lineRows := if Truthy(lines) then TableOf(lines, true) else Some([]);
          if headerRows.None? || lineRows.None? then RenderError
          else InvoiceTables(headerRows.value, lineRows.value)
      else if Truthy(diffs) then
        if diffs.JArr? then
          match Tabulate(diffs.items, false)
          case None => RenderError
          case Some(rows) => FlatTable(rows)
        else UnexpectedFormat
      else NoDifferences
  }

  /**
   * The dual-vs-single dispatch of the display block. `"custom" in
   * differences and "default" in differences` opens two tabs; on a list or a
   * string it tests elements or substrings, and the following
   * `differences["custom"]` then raises. A raising custom tab leaves the
   * default tab undrawn. Otherwise the whole result is shown on its own.
   */
  function Dispatch(result: Json, docType: string): (s: Screen)
    ensures s == KeyTestError <==> In("custom", result).None?
    ensures s.Tabs? <==> In("custom", result) == Some(true) && In("default", result) == Some(true)
    ensures s.Tabs? && !result.JObj? ==> s == Tabs(RenderError, None)
    ensures s.Tabs? && result.JObj? ==>
              && s.custom == Show(result.fields["custom"], docType)
              && (s.default.Some? <==> s.custom != RenderError)
              && (s.default.Some? ==> s.default.value == Show(result.fields["default"], docType))
    ensures s.Single? ==> s.view == Show(result, docType)
  {
    match In("custom", result)
    case None => KeyTestError
    case Some(hasCustom) =>
      if hasCustom && In("default", result) == Some(true) then
        if !result.JObj? then Tabs(RenderError, None)
        else
          var custom := Show(result.fields["custom"], docType);
          if custom == RenderError then Tabs(custom, None)
          else Tabs(custom, Some(Show(result.fields["default"], docType)))
      else Single(Show(result, docType))
  }

  /** On a dictionary the dispatch is a key test: two tabs exactly when both keys exist. */
  lemma DictionaryTabsIffBothKeys(fields: map<string, Json>, docType: string)
    ensures Dispatch(JObj(fields), docType).Tabs? <==> "custom" in fields && "default" in fields
  {
  }

  /**
   * A list answer holding the strings "custom" and "default" passes the key
   * test, opens two tabs, and raises when it is indexed by "custom".
   */
  lemma ListNamingBothKeysRaises(items: seq<Json>, docType: string)
    requires JStr("custom") in items && JStr("default") in items
    ensures Dispatch(JArr(items), docType) == Tabs(RenderError, None)
    ensures !Completes(Dispatch(JArr(items), docType))
  {
  }

  /** A text answer containing both words also opens two tabs and raises when indexed by "custom". */
  lemma TextNamingBothKeysRaises(text: string, docType: string)
    requires ContainsText(text, "custom") && ContainsText(text, "default")
    ensures Dispatch(JStr(text), docType) == Tabs(RenderError, None)
    ensures !Completes(Dispatch(JStr(text), docType))
  {
  }

  /** An error sentinel has an empty difference list, so it is shown as "no differences", not as an error. */
  lemma SentinelShownAsNoDifferences(v: Gemini.Variant, msg: string, docType: string)
    ensures Show(Gemini.Sentinel(v, msg), docType) == NoDifferences
  {
  }

  /**
   * With custom text and the default included, the stored result always opens
   * as two tabs. The custom tab shows the custom outcome; the default tab
   * shows the default outcome unless the custom tab raised first. A custom
   * call that failed shows "no differences", so the default tab is drawn.
   */
  lemma BothVariantsShowTwoTabs(file1: Gemini.DocRef, file2: Gemini.DocRef, docType: string,
                                customText: string, llm: Gemini.Request -> Gemini.Reply)
    requires Gemini.HasCustomText(Some(customText))
    ensures var s := Dispatch(Gemini.Compare(file1, file2, docType, Some(customText), true, llm), docType);
            var custom := Show(Gemini.VariantResult(Gemini.CustomVariant, file1, file2, docType, Some(customText), llm), docType);
            var default := Show(Gemini.VariantResult(Gemini.DefaultVariant, file1, file2, docType, Some(customText), llm), docType);
            && s.Tabs? && s.custom == custom
            && (custom != RenderError ==> s.default == Some(default))
            && (custom == RenderError ==> s.default == None)
            && (var reply := llm(Gemini.RequestFor(Gemini.CustomVariant, file1, file2, docType, Some(customText)));
                reply.Failure? ==> s.custom == NoDifferences && s.default == Some(default))
  {
    Gemini.BothGiveKeyedPair(file1, file2, docType, customText, llm);
    var reply := llm(Gemini.RequestFor(Gemini.CustomVariant, file1, file2, docType, Some(customText)));
    if reply.Failure? {
      SentinelShownAsNoDifferences(Gemini.CustomVariant, reply.error, docType);
    }
  }

  /**
   * When a single variant ran, its bare result is shown on its own unless the
   * model's answer itself passes the `in` test for both "custom" and
   * "default" (a dictionary with both keys, a list holding both strings, a
   * string containing both words): the dispatch looks only at that test. A
   * failed call never opens tabs.
   */
  lemma SingleVariantShownAlone(file1: Gemini.DocRef, file2: Gemini.DocRef, docType: string,
                                customPrompt: Option<string>, includeDefault: bool,
                                llm: Gemini.Request -> Gemini.Reply)
    requires |Gemini.Schedule(customPrompt, includeDefault)| == 1
    ensures var v := Gemini.Schedule(customPrompt, includeDefault)[0];
            var reply := llm(Gemini.RequestFor(v, file1, file2, docType, customPrompt));
            var s := Dispatch(Gemini.Compare(file1, file2, docType, customPrompt, includeDefault, llm), docType);
            && (s.Tabs? <==> reply.Success? && In("custom", reply.value) == Some(true)
                             && In("default", reply.value) == Some(true))
            && (reply.Failure? ==> s == Single(NoDifferences))
  {
    Gemini.CompareFollowsSchedule(file1, file2, docType, customPrompt, includeDefault, llm);
    var vs := Gemini.Schedule(customPrompt, includeDefault);
    var reply := llm(Gemini.RequestFor(vs[0], file1, file2, docType, customPrompt));
    if reply.Failure? {
      SentinelShownAsNoDifferences(vs[0], reply.error, docType);
    }
  }
}

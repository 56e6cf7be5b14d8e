/**
 * library/rjakes/RjakesSimpleFM/RjakesSimpleFM.php: the adapter subclass
 * whose CRUD methods take the layout ("view") explicitly, and the three
 * helper objects a caller fills before a select: FMP_where, FMP_sort and
 * FMP_script.
 *
 * Script parameters are written `$name="value" ; ` here, and a select
 * appends the script block when the script's name is PHP-non-empty.
 */
module RjakesSimpleFm {
  import opened PhpStrings
  import opened UrlEncoding
  import opened OrderedMaps
  import opened FmpCommand

  /** The entry FMP_sort::add stores on a list of `position` entries. */
  function FmpSortEntry(position: nat, field: Bytes, order: string): SortCriterion
  {
    SortCriterion(SortFieldText(position + 1, field), if !PhpEmpty(order) then SortOrderText(position + 1, order) else "")
  }

  /**
   * That entry is read back as precedence position + 1 and the urlencoded
   * field. It has no sort order exactly when order is PHP-empty (so "0"
   * is no order at all); otherwise the order is 'descend' for "descend"
   * and 'ascend' for anything else.
   */
  lemma FmpSortEntryReadsBack(position: nat, field: Bytes, order: string)
    ensures ParseNumbered("-sortfield.", FmpSortEntry(position, field, order).field) == Some((position + 1, UrlEncode(field)))
    ensures FmpSortEntry(position, field, order).order == "" <==> PhpEmpty(order)
    ensures !PhpEmpty(order) ==>
      ParseNumbered("-sortorder.", FmpSortEntry(position, field, order).order)
        == Some((position + 1, if order == "descend" then "descend" else "ascend"))
  {
    SortFieldRoundTrip(position + 1, field);
    NumberedRoundTrip("-sortorder.", position + 1, if order == "descend" then "descend" else "ascend");
  }

  /** Appending the entry FMP_sort::add makes keeps precedence i + 1 at every index i. */
  lemma FmpSortEntryKeepsOrder(ss: seq<SortCriterion>, field: Bytes, order: string)
    requires PrecedencesInOrder(ss)
    ensures PrecedencesInOrder(ss + [FmpSortEntry(|ss|, field, order)])
  {
    var ss' := ss + [FmpSortEntry(|ss|, field, order)];
    FmpSortEntryReadsBack(|ss|, field, order);
    forall i | 0 <= i < |ss'|
      ensures HasPrecedence(ss'[i], i + 1)
    {
      if i < |ss| {
        assert ss'[i] == ss[i];
      }
    }
  }

  // ---------------------------------------------------------------------
  // The `$name="value" ; ` script parameter format
  // ---------------------------------------------------------------------

  function QuotedParam(p: ScriptParameter): string
  {
    "$" + p.name + "=\"" + p.value + "\" ; "
  }

  function QuotedParams(ps: seq<ScriptParameter>): string
  {
    if ps == [] then "" else QuotedParam(ps[0]) + QuotedParams(ps[1..])
  }

  lemma {:induction false} QuotedParamsSnoc(ps: seq<ScriptParameter>, p: ScriptParameter)
    ensures QuotedParams(ps + [p]) == QuotedParams(ps) + QuotedParam(p)
  {
    if ps == [] {
      assert [p][1..] == [];
    } else {
      assert (ps + [p])[1..] == ps[1..] + [p];
      QuotedParamsSnoc(ps[1..], p);
    }
  }

  /** The text FMP_script::getCommand returns. */
  function QuotedScriptCommand(scriptName: Bytes, ps: seq<ScriptParameter>): string
  {
    "&-script=" + UrlEncode(scriptName) + (if ps == [] then "" else "&-script.param=" + QuotedParams(ps))
  }

  /** Reads `$name="value" ; ` entries back: the name up to the first '=', the value up to the next '"'. */
  function ParseQuotedParams(s: string): Option<seq<ScriptParameter>>
    decreases |s|
  {
    if s == [] then Some([])
    else if s[0] != '$' then None
    else
      match SplitAt(s[1..], '=')
      case None => None
      case Some((name, rest)) =>
        if rest == [] || rest[0] != '"' then None
        else
          match SplitAt(rest[1..], '"')
          case None => None
          case Some((value, tail)) =>
            if |tail| < 3 || tail[..3] != " ; " then None
            else
              match ParseQuotedParams(tail[3..])
              case None => None
              case Some(ps) => Some([ScriptParameter(name, value)] + ps)
  }

  /** One entry whose name holds no '=' and whose value holds no '"' is read off the front. */
  lemma ParseQuotedParamsCons(p: ScriptParameter, rest: string)
    requires '=' !in p.name && '"' !in p.value
    ensures ParseQuotedParams(QuotedParam(p) + rest) ==
      match ParseQuotedParams(rest)
      case None => None
      case Some(ps) => Some([p] + ps)
  {
    var afterValue := " ; " + rest;
    var afterName := ['"'] + (p.value + ['"'] + afterValue);
    assert QuotedParam(p) + rest == ['$'] + (p.name + ['='] + afterName);
    SplitAtFirst(p.name, '=', afterName);
    assert afterName[1..] == p.value + ['"'] + afterValue;
    SplitAtFirst(p.value, '"', afterValue);
    assert afterValue[..3] == " ; " && afterValue[3..] == rest;
  }

  /**
   * Parameters as addParameter stores them are read back one for one, in
   * order: a rawurlencoded value holds no '"', so the quotes delimit it.
   */
  lemma {:induction false} QuotedParamsRoundTrip(ps: seq<ScriptParameter>)
    requires AllParametersEncoded(ps)
    ensures ParseQuotedParams(QuotedParams(ps)) == Some(ps)
  {
    if ps != [] {
      var p := ps[0];
      assert ParameterEncoded(p);
      RawEncodedExcludes(p.name);
      RawEncodedExcludes(p.value);
      ParseQuotedParamsCons(p, QuotedParams(ps[1..]));
      QuotedParamsRoundTrip(ps[1..]);
      assert [p] + ps[1..] == ps;
    }
  }

  lemma {:induction false} QuotedParamsNoAmp(ps: seq<ScriptParameter>)
    requires AllParametersEncoded(ps)
    ensures '&' !in QuotedParams(ps)
  {
    if ps != [] {
      var p := ps[0];
      assert ParameterEncoded(p);
      RawEncodedExcludes(p.name);
      RawEncodedExcludes(p.value);
      QuotedParamsNoAmp(ps[1..]);
      assert QuotedParams(ps) == "$" + p.name + "=\"" + p.value + "\" ; " + QuotedParams(ps[1..]);
    }
  }

  /**
   * The script command is exactly the query parameters '-script' and, when
   * there are parameters, '-script.param': no '&' inside a name or a value
   * cuts it elsewhere, and the parameter list is read back as stored.
   */
  lemma QuotedScriptCommandPieces(scriptName: Bytes, ps: seq<ScriptParameter>)
    requires AllParametersEncoded(ps)
    ensures SplitOn(QuotedScriptCommand(scriptName, ps), '&') ==
      ["", "-script=" + UrlEncode(scriptName)] + (if ps == [] then [] else ["-script.param=" + QuotedParams(ps)])
    ensures ParseQuotedParams(QuotedParams(ps)) == Some(ps)
  {
    FormEncodedExcludes(UrlEncode(scriptName));
    if ps != [] {
      QuotedParamsNoAmp(ps);
      ScriptParamSplit(UrlEncode(scriptName), QuotedParams(ps));
      assert QuotedScriptCommand(scriptName, ps) == "&-script=" + UrlEncode(scriptName) + ("&-script.param=" + QuotedParams(ps));
    } else {
      ScriptNameSplit(UrlEncode(scriptName));
      assert QuotedScriptCommand(scriptName, ps) == "&-script=" + UrlEncode(scriptName);
    }
    QuotedParamsRoundTrip(ps);
  }

  class FmpWhere {
    var criteria: seq<WhereCriterion>

    /** One criterion when the field is PHP-non-empty, none otherwise. */
    constructor (field: Bytes, value: Bytes, op: string)
      ensures criteria == if PhpEmpty(field) then [] else [WhereEntry(field, value, op)]
    {
      criteria := [];
      new;
      if !PhpEmpty(field) {
        Add(field, value, op);
      }
    }

    /** Appends the urlencoded field and value with the operator as given. */
    method Add(field: Bytes, value: Bytes, op: string)
      modifies this`criteria
      ensures criteria == old(criteria) + [WhereEntry(field, value, op)]
    {
      var element := |criteria|;
      var whereField := UrlEncode(field);
      var whereValue := UrlEncode(value);
      criteria := criteria[..element] + [WhereCriterion(whereField, whereValue, op)];
    }
  }

  class FmpSort {
    var criteria: seq<SortCriterion>

    /** One entry when the field is PHP-non-empty, none otherwise. */
    constructor (field: Bytes, order: string)
      ensures criteria == if PhpEmpty(field) then [] else [FmpSortEntry(0, field, order)]
      ensures PrecedencesInOrder(criteria)
    {
      criteria := [];
      new;
      if !PhpEmpty(field) {
        Add(field, order);
      }
    }

    /** Appends one entry with precedence count(criteria) + 1. */
    method Add(field: Bytes, order: string)
      modifies this`criteria
      ensures criteria == old(criteria) + [FmpSortEntry(|old(criteria)|, field, order)]
      ensures PrecedencesInOrder(old(criteria)) ==> PrecedencesInOrder(criteria)
    {
      var element := |criteria|;
      var sortPrecedence := element + 1;
      var sortField := SortFieldText(sortPrecedence, field);
      var sortOrder;
      if !PhpEmpty(order) {
        sortOrder := SortOrderText(sortPrecedence, order);
      } else {
        sortOrder := "";
      }
      ghost var before := criteria;
      criteria := criteria[..element] + [SortCriterion(sortField, sortOrder)];
      assert criteria == before + [FmpSortEntry(element, field, order)];
      if PrecedencesInOrder(before) {
        FmpSortEntryKeepsOrder(before, field, order);
      }
    }
  }

  class FmpScript {
    var scriptName: Bytes
    var scriptParameters: seq<ScriptParameter>

    constructor (name: Bytes)
      ensures scriptName == name && scriptParameters == []
      ensures AllParametersEncoded(scriptParameters)
    {
      scriptName := name;
      scriptParameters := [];
    }

    /**
     * Appends one parameter, its value's quotes escaped, both rawurlencoded;
     * nothing when the encoded name is PHP-empty, that is when the name
     * is '' or "0".
     */
    method AddParameter(name: Bytes, value: Bytes)
      modifies this`scriptParameters
      ensures PhpEmpty(name) ==> scriptParameters == old(scriptParameters)
      ensures !PhpEmpty(name) ==> scriptParameters == old(scriptParameters) + [ParameterEntry(name, value)]
      ensures AllParametersEncoded(old(scriptParameters)) ==> AllParametersEncoded(scriptParameters)
    {
      var element := |scriptParameters|;
      var parameterName := RawUrlEncode(name);
      var parameterValue := RawUrlEncode(EscapeQuotes(value));
      RawUrlEncodeEmpty(name);
      if !PhpEmpty(parameterName) {
        scriptParameters := scriptParameters[..element] + [ScriptParameter(parameterName, parameterValue)];
      }
    }

    /** '&-script=' and the urlencoded name, then '&-script.param=' and `$name="value" ; ` per parameter. */
    method GetCommand() returns (command: string)
      ensures command == QuotedScriptCommand(scriptName, scriptParameters)
    {
      command := "&-script=" + UrlEncode(scriptName);
      if |scriptParameters| > 0 {
        command := command + "&-script.param=";
        ghost var start := command;
        var i := 0;
        while i < |scriptParameters|
          invariant 0 <= i <= |scriptParameters|
          invariant command == start + QuotedParams(scriptParameters[..i])
        {
          var scriptParameter := scriptParameters[i];
          QuotedParamsSnoc(scriptParameters[..i], scriptParameter);
          assert scriptParameters[..i + 1] == scriptParameters[..i] + [scriptParameter];
          AppendAssoc(start, QuotedParams(scriptParameters[..i]), QuotedParam(scriptParameter));
          command := command + ("$" + scriptParameter.name + "=\"" + scriptParameter.value + "\" ; ");
          i := i + 1;
        }
        assert scriptParameters[..i] == scriptParameters;
        AppendAssoc("&-script=" + UrlEncode(scriptName), "&-script.param=", QuotedParams(scriptParameters));
      }
    }
  }

  class RjakesSimpleFM {
    /** The adapter's layout name. */
    var layoutname: string
    /** The adapter's command string, written by select and serverScript. */
    var commandstring: string
    /** The adapter's command array, as setCommandarray records it. */
    var commandArray: OrderedMap

    constructor ()
      ensures layoutname == "" && commandstring == "" && commandArray == []
    {
      layoutname := "";
      commandstring := "";
      commandArray := [];
    }

    /** delete: '-delete' and '-recid' on the given layout. */
    method Delete(view: string, recId: string) returns (r: Request)
      modifies this`layoutname, this`commandArray
      ensures layoutname == view && commandArray == DeleteCommand(recId)
      ensures r == Request(layoutname, CommandArray(commandArray))
    {
      layoutname := view;
      commandArray := DeleteCommand(recId);
      r := Request(layoutname, CommandArray(commandArray));
    }

    /** duplicate: '-dup' and '-recid' on the given layout. */
    method Duplicate(view: string, recId: string) returns (r: Request)
      modifies this`layoutname, this`commandArray
      ensures layoutname == view && commandArray == DuplicateCommand(recId)
      ensures r == Request(layoutname, CommandArray(commandArray))
    {
      layoutname := view;
      commandArray := DuplicateCommand(recId);
      r := Request(layoutname, CommandArray(commandArray));
    }

    /** update: the fields, then '-edit', then '-recid', on the given layout. */
    method Update(view: string, recId: string, valueArray: OrderedMap) returns (r: Request)
      modifies this`layoutname, this`commandArray
      ensures layoutname == view && commandArray == UpdateCommand(valueArray, recId)
      ensures r == Request(layoutname, CommandArray(commandArray))
    {
      layoutname := view;
      commandArray := UpdateCommand(valueArray, recId);
      r := Request(layoutname, CommandArray(commandArray));
    }

    /**
     * select: the criteria of `where` and `sort` rendered after '-max=' and
     * '-skip=', then the script command when the script's name is
     * PHP-non-empty. A missing (null) where or sort contributes nothing.
     */
    method Select(view: string, where: FmpWhere?, sort: FmpSort?, max: string, skip: string, script: FmpScript?)
      returns (r: Request)
      modifies this`layoutname, this`commandstring
      ensures layoutname == view
      ensures commandstring ==
        Join(SelectPieces(max, skip,
                          if where == null then [] else where.criteria,
                          if sort == null then [] else sort.criteria), '&')
        + (if script != null && !PhpEmpty(script.scriptName)
           then QuotedScriptCommand(script.scriptName, script.scriptParameters)
           else "")
      ensures r == Request(layoutname, CommandString(commandstring))
    {
      layoutname := view;
      var whereCriteria := if where == null then [] else where.criteria;
      var sortCriteria := if sort == null then [] else sort.criteria;
      commandstring := RenderSelect(max, skip, whereCriteria, sortCriteria);
      if script != null && !PhpEmpty(script.scriptName) {
        var scriptCommand := script.GetCommand();
        commandstring := commandstring + scriptCommand;
      }
      r := Request(layoutname, CommandString(commandstring));
    }

    /** insert: the fields plus '-new', on the given layout. */
    method Insert(view: string, valueArray: OrderedMap) returns (r: Request)
      modifies this`layoutname, this`commandArray
      ensures layoutname == view && commandArray == InsertCommand(valueArray)
      ensures r == Request(layoutname, CommandArray(commandArray))
    {
      layoutname := view;
      commandArray := InsertCommand(valueArray);
      r := Request(layoutname, CommandArray(commandArray));
    }

    /** serverScript: '-findany' followed by the script command. */
    method ServerScript(view: string, script: FmpScript) returns (r: Request)
      modifies this`layoutname, this`commandstring
      ensures layoutname == view
      ensures commandstring == "-findany" + QuotedScriptCommand(script.scriptName, script.scriptParameters)
      ensures r == Request(layoutname, CommandString(commandstring))
    {
      layoutname := view;
      commandstring := "-findany";
      var scriptCommand := script.GetCommand();
      commandstring := commandstring + scriptCommand;
      r := Request(layoutname, CommandString(commandstring));
    }
  }
}

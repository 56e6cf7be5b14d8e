/**
 * library/rjakes/RjakesSimpleFM/Facade.php: a builder that keeps find
 * criteria, sort criteria and script parameters, resolves the layout name
 * (explicit, else the default, else an error), and composes the FMP
 * XML/URL command each request hands to the adapter's execute().
 *
 * Script parameters are written `name=value||||` here.
 */
module SimpleFmFacade {
  import opened PhpStrings
  import opened UrlEncoding
  import opened OrderedMaps
  import opened FmpCommand

  /** The one error this layer raises itself. */
  datatype Error = LayoutNameNotSpecified

  datatype Result<T> = Ok(value: T) | Err(error: Error)

  /**
   * setLayoutName's rule: a name other than '' wins (so "0" is a name),
   * otherwise the default; it is an error when that is '' as well.
   */
  function ResolveLayout(fmLayout: string, defaultLayoutName: string): (r: Result<string>)
    ensures r.Ok? <==> fmLayout != "" || defaultLayoutName != ""
    ensures r.Ok? ==> r.value != "" && (r.value == fmLayout || r.value == defaultLayoutName)
    ensures fmLayout != "" ==> r == Ok(fmLayout)
  {
    var name := if fmLayout != "" then fmLayout else defaultLayoutName;
    if name == "" then Err(LayoutNameNotSpecified) else Ok(name)
  }

  /** The entry addSortCriteria stores on a list of `position` entries. */
  function SortEntry(position: nat, field: Bytes, order: string): SortCriterion
  {
    SortCriterion(SortFieldText(position + 1, field), if order != "" then SortOrderText(position + 1, order) else "")
  }

  /**
   * That entry is read back as precedence position + 1 and the urlencoded
   * field. It has no sort order exactly when order is ''; otherwise the
   * order is 'descend' for "descend" and 'ascend' for anything else.
   */
  lemma SortEntryReadsBack(position: nat, field: Bytes, order: string)
    ensures ParseNumbered("-sortfield.", SortEntry(position, field, order).field) == Some((position + 1, UrlEncode(field)))
    ensures SortEntry(position, field, order).order == "" <==> order == ""
    ensures order != "" ==>
      ParseNumbered("-sortorder.", SortEntry(position, field, order).order)
        == Some((position + 1, if order == "descend" then "descend" else "ascend"))
  {
    SortFieldRoundTrip(position + 1, field);
    NumberedRoundTrip("-sortorder.", position + 1, if order == "descend" then "descend" else "ascend");
  }

  /** Appending the entry addSortCriteria makes keeps precedence i + 1 at every index i. */
  lemma SortEntryKeepsOrder(ss: seq<SortCriterion>, field: Bytes, order: string)
    requires PrecedencesInOrder(ss)
    ensures PrecedencesInOrder(ss + [SortEntry(|ss|, field, order)])
  {
    var ss' := ss + [SortEntry(|ss|, field, order)];
    SortEntryReadsBack(|ss|, field, order);
    forall i | 0 <= i < |ss'|
      ensures HasPrecedence(ss'[i], i + 1)
    {
      if i < |ss| {
        assert ss'[i] == ss[i];
      }
    }
  }

  // ---------------------------------------------------------------------
  // The `name=value||||` script parameter format
  // ---------------------------------------------------------------------

  function PipeParam(p: ScriptParameter): string
  {
    p.name + "=" + p.value + "||||"
  }

  function PipeParams(ps: seq<ScriptParameter>): string
  {
    if ps == [] then "" else PipeParam(ps[0]) + PipeParams(ps[1..])
  }

  lemma {:induction false} PipeParamsSnoc(ps: seq<ScriptParameter>, p: ScriptParameter)
    ensures PipeParams(ps + [p]) == PipeParams(ps) + PipeParam(p)
  {
    if ps == [] {
      assert [p][1..] == [];
    } else {
      assert (ps + [p])[1..] == ps[1..] + [p];
      PipeParamsSnoc(ps[1..], p);
    }
  }

  /** The text makeScriptCommand returns. */
  function ScriptCommand(scriptName: Bytes, ps: seq<ScriptParameter>): string
  {
    "&-script=" + UrlEncode(scriptName) + (if ps == [] then "" else "&-script.param=" + PipeParams(ps))
  }

  /** Reads `name=value||||` entries back: the name up to the first '=', the value up to the first '|'. */
  function ParsePipeParams(s: string): Option<seq<ScriptParameter>>
    decreases |s|
  {
    if s == [] then Some([])
    else
      match SplitAt(s, '=')
      case None => None
      case Some((name, rest)) =>
        match SplitAt(rest, '|')
        case None => None
        case Some((value, tail)) =>
          if |tail| < 3 || tail[..3] != "|||" then None
          else
            match ParsePipeParams(tail[3..])
            case None => None
            case Some(ps) => Some([ScriptParameter(name, value)] + ps)
  }

  /** One entry whose name holds no '=' and whose value holds no '|' is read off the front. */
  lemma ParsePipeParamsCons(p: ScriptParameter, rest: string)
    requires '=' !in p.name && '|' !in p.value
    ensures ParsePipeParams(PipeParam(p) + rest) ==
      match ParsePipeParams(rest)
      case None => None
      case Some(ps) => Some([p] + ps)
  {
    var afterValue := "|||" + rest;
    var afterName := p.value + ['|'] + afterValue;
    assert PipeParam(p) + rest == p.name + ['='] + afterName;
    SplitAtFirst(p.name, '=', afterName);
    SplitAtFirst(p.value, '|', afterValue);
    assert afterValue[..3] == "|||" && afterValue[3..] == rest;
  }

  /** Parameters as addScriptParameter stores them are read back one for one, in order. */
  lemma {:induction false} PipeParamsRoundTrip(ps: seq<ScriptParameter>)
    requires AllParametersEncoded(ps)
    ensures ParsePipeParams(PipeParams(ps)) == Some(ps)
  {
    if ps != [] {
      var p := ps[0];
      assert ParameterEncoded(p);
      RawEncodedExcludes(p.name);
      RawEncodedExcludes(p.value);
      ParsePipeParamsCons(p, PipeParams(ps[1..]));
      PipeParamsRoundTrip(ps[1..]);
      assert [p] + ps[1..] == ps;
    }
  }

  lemma {:induction false} PipeParamsNoAmp(ps: seq<ScriptParameter>)
    requires AllParametersEncoded(ps)
    ensures '&' !in PipeParams(ps)
  {
    if ps != [] {
      var p := ps[0];
      assert ParameterEncoded(p);
      RawEncodedExcludes(p.name);
      RawEncodedExcludes(p.value);
      PipeParamsNoAmp(ps[1..]);
      assert PipeParams(ps) == p.name + "=" + p.value + "||||" + PipeParams(ps[1..]);
    }
  }

  /**
   * The script command is exactly the query parameters '-script' and, when
   * there are parameters, '-script.param': no '&' inside a name or a value
   * cuts it elsewhere, and the parameter list is read back as stored.
   */
  lemma ScriptCommandPieces(scriptName: Bytes, ps: seq<ScriptParameter>)
    requires AllParametersEncoded(ps)
    ensures SplitOn(ScriptCommand(scriptName, ps), '&') ==
      ["", "-script=" + UrlEncode(scriptName)] + (if ps == [] then [] else ["-script.param=" + PipeParams(ps)])
    ensures ParsePipeParams(PipeParams(ps)) == Some(ps)
  {
    FormEncodedExcludes(UrlEncode(scriptName));
    if ps != [] {
      PipeParamsNoAmp(ps);
      ScriptParamSplit(UrlEncode(scriptName), PipeParams(ps));
      assert ScriptCommand(scriptName, ps) == "&-script=" + UrlEncode(scriptName) + ("&-script.param=" + PipeParams(ps));
    } else {
      ScriptNameSplit(UrlEncode(scriptName));
      assert ScriptCommand(scriptName, ps) == "&-script=" + UrlEncode(scriptName);
    }
    PipeParamsRoundTrip(ps);
  }

  class Facade {
    var defaultLayoutName: string
    /** The adapter's layout name. */
    var layoutname: string
    var whereCriteria: seq<WhereCriterion>
    var sortCriteria: seq<SortCriterion>
    var scriptName: Bytes
    var scriptParameters: seq<ScriptParameter>
    /** The adapter's command string, written by select and executeFmScript. */
    var commandstring: string
    /** The adapter's command array, as setCommandarray records it. */
    var commandArray: OrderedMap

    /** The property defaults. */
    constructor ()
      ensures defaultLayoutName == "" && layoutname == ""
      ensures whereCriteria == [] && sortCriteria == []
      ensures scriptName == [] && scriptParameters == []
      ensures commandstring == "" && commandArray == []
    {
      defaultLayoutName := "";
      layoutname := "";
      whereCriteria := [];
      sortCriteria := [];
      scriptName := [];
      scriptParameters := [];
      commandstring := "";
      commandArray := [];
    }

    method SetDefaultLayoutName(fmLayout: string)
      modifies this`defaultLayoutName
      ensures defaultLayoutName == fmLayout
    {
      defaultLayoutName := fmLayout;
    }

    /**
     * The explicit name if it is not '', else the default; Err when the
     * result is '' (the source throws after assigning it).
     */
    method SetLayoutName(fmLayout: string) returns (r: Result<string>)
      modifies this`layoutname
      ensures r == ResolveLayout(fmLayout, defaultLayoutName)
      ensures layoutname == if r.Ok? then r.value else ""
    {
      if fmLayout != "" {
        layoutname := fmLayout;
      } else {
        layoutname := defaultLayoutName;
      }
      if layoutname == "" {
        return Err(LayoutNameNotSpecified);
      }
      r := Ok(layoutname);
    }

    /** Appends one criterion at index count(whereCriteria). */
    method AddWhereCriteria(field: Bytes, value: Bytes, op: string)
      modifies this`whereCriteria
      ensures whereCriteria == old(whereCriteria) + [WhereEntry(field, value, op)]
    {
      var element := |whereCriteria|;
      whereCriteria := whereCriteria[..element] + [WhereEntry(field, value, op)];
    }

    method GetWhereCriteria() returns (criteria: seq<WhereCriterion>)
      ensures criteria == whereCriteria
    {
      criteria := whereCriteria;
    }

    method SetWhereCriteria(criteria: seq<WhereCriterion>)
      modifies this`whereCriteria
      ensures whereCriteria == criteria
    {
      whereCriteria := criteria;
    }

    /** Appends one sort entry with precedence count(sortCriteria) + 1. */
    method AddSortCriteria(field: Bytes, order: string)
      modifies this`sortCriteria
      ensures sortCriteria == old(sortCriteria) + [SortEntry(|old(sortCriteria)|, field, order)]
      ensures PrecedencesInOrder(old(sortCriteria)) ==> PrecedencesInOrder(sortCriteria)
    {
      var element := |sortCriteria|;
      var sortPrecedence := element + 1;
      var sortField := SortFieldText(sortPrecedence, field);
      var sortOrder;
      if order != "" {
        sortOrder := SortOrderText(sortPrecedence, order);
      } else {
        sortOrder := "";
      }
      ghost var before := sortCriteria;
      sortCriteria := sortCriteria[..element] + [SortCriterion(sortField, sortOrder)];
      assert sortCriteria == before + [SortEntry(element, field, order)];
      if PrecedencesInOrder(before) {
        SortEntryKeepsOrder(before, field, order);
      }
    }

    method SetSortCriteria(criteria: seq<SortCriterion>)
      modifies this`sortCriteria
      ensures sortCriteria == criteria
    {
      sortCriteria := criteria;
    }

    method GetSortCriteria() returns (criteria: seq<SortCriterion>)
      ensures criteria == sortCriteria
    {
      criteria := sortCriteria;
    }

    /** delete: '-delete' and '-recid', after the layout is resolved. */
    method Delete(recId: string, fmLayout: string) returns (r: Result<Request>)
      modifies this`layoutname, this`commandArray
      ensures layoutname == if fmLayout != "" then fmLayout else defaultLayoutName
      ensures r.Err? <==> ResolveLayout(fmLayout, defaultLayoutName).Err?
      ensures r.Err? ==> commandArray == old(commandArray)
      ensures r.Ok? ==> commandArray == DeleteCommand(recId)
      ensures r.Ok? ==> r.value == Request(layoutname, CommandArray(commandArray))
    {
      var layout := SetLayoutName(fmLayout);
      if layout.Err? {
        return Err(layout.error);
      }
      commandArray := DeleteCommand(recId);
      r := Ok(Request(layoutname, CommandArray(commandArray)));
    }

    /** duplicate: '-dup' and '-recid', after the layout is resolved. */
    method Duplicate(recId: string, fmLayout: string) returns (r: Result<Request>)
      modifies this`layoutname, this`commandArray
      ensures layoutname == if fmLayout != "" then fmLayout else defaultLayoutName
      ensures r.Err? <==> ResolveLayout(fmLayout, defaultLayoutName).Err?
      ensures r.Err? ==> commandArray == old(commandArray)
      ensures r.Ok? ==> commandArray == DuplicateCommand(recId)
      ensures r.Ok? ==> r.value == Request(layoutname, CommandArray(commandArray))
    {
      var layout := SetLayoutName(fmLayout);
      if layout.Err? {
        return Err(layout.error);
      }
      commandArray := DuplicateCommand(recId);
      r := Ok(Request(layoutname, CommandArray(commandArray)));
    }

    /** update: the fields, then '-edit', then '-recid', after the layout is resolved. */
    method Update(recId: string, valueArray: OrderedMap, fmLayout: string) returns (r: Result<Request>)
      modifies this`layoutname, this`commandArray
      ensures layoutname == if fmLayout != "" then fmLayout else defaultLayoutName
      ensures r.Err? <==> ResolveLayout(fmLayout, defaultLayoutName).Err?
      ensures r.Err? ==> commandArray == old(commandArray)
      ensures r.Ok? ==> commandArray == UpdateCommand(valueArray, recId)
      ensures r.Ok? ==> r.value == Request(layoutname, CommandArray(commandArray))
    {
      var layout := SetLayoutName(fmLayout);
      if layout.Err? {
        return Err(layout.error);
      }
      commandArray := UpdateCommand(valueArray, recId);
      r := Ok(Request(layoutname, CommandArray(commandArray)));
    }

    /**
     * select: the stored criteria and sort entries rendered after '-max='
     * and '-skip='. The source's script guard reads an undefined local
     * variable, which PHP's empty() treats as empty, so the script block
     * is never appended and scriptName plays no part.
     */
    method Select(max: string, skip: string, fmLayout: string) returns (r: Result<Request>)
      modifies this`layoutname, this`commandstring
      ensures layoutname == if fmLayout != "" then fmLayout else defaultLayoutName
      ensures r.Err? <==> ResolveLayout(fmLayout, defaultLayoutName).Err?
      ensures r.Err? ==> commandstring == old(commandstring)
      ensures r.Ok? ==> commandstring == Join(SelectPieces(max, skip, whereCriteria, sortCriteria), '&')
      ensures r.Ok? ==> r.value == Request(layoutname, CommandString(commandstring))
    {
      var layout := SetLayoutName(fmLayout);
      if layout.Err? {
        return Err(layout.error);
      }
      commandstring := RenderSelect(max, skip, whereCriteria, sortCriteria);
      r := Ok(Request(layoutname, CommandString(commandstring)));
    }

    /** insert: the fields plus '-new', after the layout is resolved. */
    method Insert(valueArray: OrderedMap, fmLayout: string) returns (r: Result<Request>)
      modifies this`layoutname, this`commandArray
      ensures layoutname == if fmLayout != "" then fmLayout else defaultLayoutName
      ensures r.Err? <==> ResolveLayout(fmLayout, defaultLayoutName).Err?
      ensures r.Err? ==> commandArray == old(commandArray)
      ensures r.Ok? ==> commandArray == InsertCommand(valueArray)
      ensures r.Ok? ==> r.value == Request(layoutname, CommandArray(commandArray))
    {
      var layout := SetLayoutName(fmLayout);
      if layout.Err? {
        return Err(layout.error);
      }
      commandArray := InsertCommand(valueArray);
      r := Ok(Request(layoutname, CommandArray(commandArray)));
    }

    method SetScriptName(name: Bytes)
      modifies this`scriptName
      ensures scriptName == name
    {
      scriptName := name;
    }

    method GetScriptName() returns (name: Bytes)
      ensures name == scriptName
    {
      name := scriptName;
    }

    /**
     * Appends one parameter, its value's quotes escaped, both rawurlencoded;
     * nothing when the encoded name is PHP-empty, that is when the name
     * is '' or "0".
     */
    method AddScriptParameter(name: Bytes, value: Bytes)
      modifies this`scriptParameters
      ensures PhpEmpty(name) ==> scriptParameters == old(scriptParameters)
      ensures !PhpEmpty(name) ==> scriptParameters == old(scriptParameters) + [ParameterEntry(name, value)]
      ensures AllParametersEncoded(old(scriptParameters)) ==> AllParametersEncoded(scriptParameters)
    {
      var element := |scriptParameters|;
      var parameterName := RawUrlEncode(name);
      var parameterValue := RawUrlEncode(EscapeQuotes(value));
      RawUrlEncodeEmpty(name);
      if !PhpEmpty(parameterName) {
        scriptParameters := scriptParameters[..element] + [ScriptParameter(parameterName, parameterValue)];
      }
    }

    method SetScriptParameters(parameters: seq<ScriptParameter>)
      modifies this`scriptParameters
      ensures scriptParameters == parameters
    {
      scriptParameters := parameters;
    }

    method GetScriptParameters() returns (parameters: seq<ScriptParameter>)
      ensures parameters == scriptParameters
    {
      parameters := scriptParameters;
    }

    /** '&-script=' and the urlencoded name, then '&-script.param=' and `name=value||||` per parameter. */
    method MakeScriptCommand() returns (command: string)
      ensures command == ScriptCommand(scriptName, scriptParameters)
    {
      command := "&-script=" + UrlEncode(scriptName);
      if |scriptParameters| > 0 {
        command := command + "&-script.param=";
        ghost var start := command;
        var i := 0;
        while i < |scriptParameters|
          invariant 0 <= i <= |scriptParameters|
          invariant command == start + PipeParams(scriptParameters[..i])
        {
          var scriptParameter := scriptParameters[i];
          PipeParamsSnoc(scriptParameters[..i], scriptParameter);
          assert scriptParameters[..i + 1] == scriptParameters[..i] + [scriptParameter];
          AppendAssoc(start, PipeParams(scriptParameters[..i]), PipeParam(scriptParameter));
          command := command + (scriptParameter.name + "=" + scriptParameter.value + "||||");
          i := i + 1;
        }
        assert scriptParameters[..i] == scriptParameters;
        AppendAssoc("&-script=" + UrlEncode(scriptName), "&-script.param=", PipeParams(scriptParameters));
      }
    }

    /**
     * Sets the script name when one other than '' is given, resolves the
     * layout, and sends '-findany' followed by the script command.
     */
    method ExecuteFmScript(script: Bytes, fmLayout: string) returns (r: Result<Request>)
      modifies this`scriptName, this`layoutname, this`commandstring
      ensures scriptName == if script != [] then script else old(scriptName)
      ensures layoutname == if fmLayout != "" then fmLayout else defaultLayoutName
      ensures r.Err? <==> ResolveLayout(fmLayout, defaultLayoutName).Err?
      ensures r.Err? ==> commandstring == old(commandstring)
      ensures r.Ok? ==> commandstring == "-findany" + ScriptCommand(scriptName, scriptParameters)
      ensures r.Ok? ==> r.value == Request(layoutname, CommandString(commandstring))
    {
      if script != [] {
        SetScriptName(script);
      }
      var layout := SetLayoutName(fmLayout);
      if layout.Err? {
        return Err(layout.error);
      }
      commandstring := "-findany";
      var scriptCommand := MakeScriptCommand();
      commandstring := commandstring + scriptCommand;
      r := Ok(Request(layoutname, CommandString(commandstring)));
    }
  }
}

/**
 * What Facade.php and RjakesSimpleFM.php share: the stored shape of a
 * find criterion, a sort criterion and a script parameter; the FMP XML/URL
 * pieces a select command is made of and the `$amp` loop that joins them;
 * and the command arrays of the insert, update, delete and duplicate
 * requests. Both files carry the same text for these, so it is modelled
 * once here.
 */
module FmpCommand {
  import opened PhpStrings
  import opened UrlEncoding
  import opened OrderedMaps

  /** One stored find criterion: field and value already urlencoded, op as given. */
  datatype WhereCriterion = WhereCriterion(field: string, value: string, op: string)

  /** One stored sort criterion: the '-sortfield.N=...' and '-sortorder.N=...' texts ('' when absent). */
  datatype SortCriterion = SortCriterion(field: string, order: string)

  /** One stored script parameter: name and value already rawurlencoded. */
  datatype ScriptParameter = ScriptParameter(name: string, value: string)

  /** What a request hands to the adapter's execute(): a command string or a command array. */
  datatype Command = CommandString(s: string) | CommandArray(pairs: OrderedMap)

  /** The layout the adapter was told to use and the command it was given. */
  datatype Request = Request(layout: string, command: Command)

  // ---------------------------------------------------------------------
  // Entries as the add methods store them
  // ---------------------------------------------------------------------

  /** The entry addWhereCriteria / FMP_where::add stores. */
  function WhereEntry(field: Bytes, value: Bytes, op: string): (w: WhereCriterion)
    ensures UrlDecode(w.field) == field && UrlDecode(w.value) == value && w.op == op
    ensures '&' !in w.field && '=' !in w.field && '&' !in w.value
  {
    UrlDecodeEncode(field);
    UrlDecodeEncode(value);
    FormEncodedExcludes(UrlEncode(field));
    FormEncodedExcludes(UrlEncode(value));
    WhereCriterion(UrlEncode(field), UrlEncode(value), op)
  }

  /** The entry addScriptParameter / FMP_script::addParameter would store. */
  function ParameterEntry(name: Bytes, value: Bytes): (p: ScriptParameter)
    ensures RawUrlDecode(p.name) == name
    ensures UnescapeQuotes(RawUrlDecode(p.value)) == value
    ensures RawEncoded(p.name) && RawEncoded(p.value)
  {
    RawUrlDecodeEncode(name);
    RawUrlDecodeEncode(EscapeQuotes(value));
    UnescapeEscape(value);
    ScriptParameter(RawUrlEncode(name), RawUrlEncode(EscapeQuotes(value)))
  }

  /** A parameter whose name and value are what rawurlencode writes. */
  predicate ParameterEncoded(p: ScriptParameter)
  {
    RawEncoded(p.name) && RawEncoded(p.value)
  }

  /** "-sortfield.N=" followed by the urlencoded field. */
  function SortFieldText(precedence: nat, field: Bytes): string
  {
    "-sortfield." + NatToString(precedence) + "=" + UrlEncode(field)
  }

  /** "-sortorder.N=descend" for 'descend', "-sortorder.N=ascend" for any other order. */
  function SortOrderText(precedence: nat, order: string): string
  {
    "-sortorder." + NatToString(precedence) + "=" + (if order == "descend" then "descend" else "ascend")
  }

  /**
   * Reads "<prefix>N=rest" as (N, rest): a reader that takes the digits up
   * to the first '=' as the number.
   */
  function ParseNumbered(prefix: string, s: string): Option<(nat, string)>
  {
    if |s| < |prefix| || s[..|prefix|] != prefix then None
    else
      match SplitAt(s[|prefix|..], '=')
      case None => None
      case Some((digits, rest)) =>
        if digits != [] && AllDigits(digits) then Some((ParseDecimal(digits), rest)) else None
  }

  /** A numbered parameter is read back as its number and its value. */
  lemma NumberedRoundTrip(prefix: string, n: nat, rest: string)
    ensures ParseNumbered(prefix, prefix + NatToString(n) + "=" + rest) == Some((n, rest))
  {
    var digits := NatToString(n);
    var s := prefix + digits + "=" + rest;
    assert s[..|prefix|] == prefix;
    assert s[|prefix|..] == digits + ['='] + rest;
    assert forall i :: 0 <= i < |digits| ==> digits[i] != '=';
    SplitAtFirst(digits, '=', rest);
    ParseNatToString(n);
  }

  /** The sort field text names precedence N and the field, both recoverable. */
  lemma SortFieldRoundTrip(precedence: nat, field: Bytes)
    ensures ParseNumbered("-sortfield.", SortFieldText(precedence, field)) == Some((precedence, UrlEncode(field)))
    ensures UrlDecode(UrlEncode(field)) == field
  {
    NumberedRoundTrip("-sortfield.", precedence, UrlEncode(field));
    UrlDecodeEncode(field);
  }

  /** The precedence the server reads from a sort entry's field text is n. */
  predicate HasPrecedence(s: SortCriterion, n: nat)
  {
    ParseNumbered("-sortfield.", s.field).Some? && ParseNumbered("-sortfield.", s.field).value.0 == n
  }

  /** Entry i carries precedence i + 1, so the sorts apply in list order. */
  predicate PrecedencesInOrder(ss: seq<SortCriterion>)
  {
    forall i :: 0 <= i < |ss| ==> HasPrecedence(ss[i], i + 1)
  }

  /** Every stored parameter is as rawurlencode writes it. */
  predicate AllParametersEncoded(ps: seq<ScriptParameter>)
  {
    forall i :: 0 <= i < |ps| ==> ParameterEncoded(ps[i])
  }

  // ---------------------------------------------------------------------
  // The pieces of a select command
  // ---------------------------------------------------------------------

  /** '-max=' and '-skip=', each only when PHP-non-empty. */
  function PagingPieces(max: string, skip: string): seq<string>
  {
    (if PhpEmpty(max) then [] else ["-max=" + max]) + (if PhpEmpty(skip) then [] else ["-skip=" + skip])
  }

  /** 'field=value', then 'field.op=op' when op is PHP-non-empty. */
  function EntryPieces(w: WhereCriterion): seq<string>
  {
    [w.field + "=" + w.value] + (if PhpEmpty(w.op) then [] else [w.field + ".op=" + w.op])
  }

  /** The pieces of all criteria, in list order. */
  function EntriesPieces(ws: seq<WhereCriterion>): seq<string>
  {
    if ws == [] then [] else EntriesPieces(ws[..|ws| - 1]) + EntryPieces(ws[|ws| - 1])
  }

  /** Every criterion piece holds an '=', and the first is the first criterion's 'field=value'. */
  lemma {:induction false} EntriesPiecesShape(ws: seq<WhereCriterion>)
    ensures forall i :: 0 <= i < |EntriesPieces(ws)| ==> '=' in EntriesPieces(ws)[i]
    ensures ws != [] ==> |EntriesPieces(ws)| >= 1 && EntriesPieces(ws)[0] == ws[0].field + "=" + ws[0].value
  {
    if ws != [] {
      var init := ws[..|ws| - 1];
      EntriesPiecesShape(init);
      assert |ws| > 1 ==> init[0] == ws[0];
    }
  }

  /** The criteria followed by '-find', or '-findall' alone when there are none. */
  function WherePieces(ws: seq<WhereCriterion>): seq<string>
  {
    if ws == [] then ["-findall"] else EntriesPieces(ws) + ["-find"]
  }

  /** The sort field, then the sort order when it is PHP-non-empty. */
  function SortEntryPieces(s: SortCriterion): seq<string>
  {
    [s.field] + (if PhpEmpty(s.order) then [] else [s.order])
  }

  function SortPieces(ss: seq<SortCriterion>): seq<string>
  {
    if ss == [] then [] else SortPieces(ss[..|ss| - 1]) + SortEntryPieces(ss[|ss| - 1])
  }

  /** Every piece of a select command up to the script block, in order. */
  function SelectPieces(max: string, skip: string, ws: seq<WhereCriterion>, ss: seq<SortCriterion>): seq<string>
  {
    PagingPieces(max, skip) + WherePieces(ws) + SortPieces(ss)
  }

  /** Exactly one of '-find' and '-findall' is a piece: '-find' when there are criteria. */
  lemma FindXorFindAll(ws: seq<WhereCriterion>)
    ensures ("-find" in WherePieces(ws)) <==> ws != []
    ensures ("-findall" in WherePieces(ws)) <==> ws == []
  {
    var r := WherePieces(ws);
    if ws != [] {
      EntriesPiecesShape(ws);
      var es := EntriesPieces(ws);
      assert r == es + ["-find"];
      assert forall i :: 0 <= i < |es| ==> es[i] != "-findall" && es[i] != "-find";
    }
  }

  /**
   * A select command never starts with '&' when the first criterion's
   * field does not (a urlencoded field never does).
   */
  lemma SelectNoLeadingSeparator(max: string, skip: string, ws: seq<WhereCriterion>, ss: seq<SortCriterion>)
    requires ws != [] && ws[0].field != [] ==> ws[0].field[0] != '&'
    ensures var c := Join(SelectPieces(max, skip, ws, ss), '&'); |c| > 0 && c[0] != '&'
  {
    var ps := SelectPieces(max, skip, ws, ss);
    EntriesPiecesShape(ws);
    JoinHead(ps, '&');
    assert |ps[0]| > 0 && ps[0][0] != '&';
  }

  /** No piece contains c. */
  predicate NoneContains(ps: seq<string>, c: char)
  {
    forall i :: 0 <= i < |ps| ==> c !in ps[i]
  }

  lemma NoneContainsAppend(a: seq<string>, b: seq<string>, c: char)
    requires NoneContains(a, c) && NoneContains(b, c)
    ensures NoneContains(a + b, c)
  {
  }

  /** Criteria free of '&' give pieces free of '&'. */
  lemma {:induction false} EntriesPiecesNoAmp(ws: seq<WhereCriterion>)
    requires forall i :: 0 <= i < |ws| ==> '&' !in ws[i].field && '&' !in ws[i].value && '&' !in ws[i].op
    ensures NoneContains(EntriesPieces(ws), '&')
  {
    if ws != [] {
      EntriesPiecesNoAmp(ws[..|ws| - 1]);
      NoneContainsAppend(EntriesPieces(ws[..|ws| - 1]), EntryPieces(ws[|ws| - 1]), '&');
    }
  }

  /** Sort entries free of '&' give pieces free of '&'. */
  lemma {:induction false} SortPiecesNoAmp(ss: seq<SortCriterion>)
    requires forall i :: 0 <= i < |ss| ==> '&' !in ss[i].field && '&' !in ss[i].order
    ensures NoneContains(SortPieces(ss), '&')
  {
    if ss != [] {
      SortPiecesNoAmp(ss[..|ss| - 1]);
      NoneContainsAppend(SortPieces(ss[..|ss| - 1]), SortEntryPieces(ss[|ss| - 1]), '&');
    }
  }

  /**
   * When no stored text contains '&', splitting the command at '&' gives
   * back exactly its pieces: the command is unambiguous.
   */
  lemma SelectSplitsIntoPieces(max: string, skip: string, ws: seq<WhereCriterion>, ss: seq<SortCriterion>)
    requires '&' !in max && '&' !in skip
    requires forall i :: 0 <= i < |ws| ==> '&' !in ws[i].field && '&' !in ws[i].value && '&' !in ws[i].op
    requires forall i :: 0 <= i < |ss| ==> '&' !in ss[i].field && '&' !in ss[i].order
    ensures SplitOn(Join(SelectPieces(max, skip, ws, ss), '&'), '&') == SelectPieces(max, skip, ws, ss)
  {
    EntriesPiecesNoAmp(ws);
    SortPiecesNoAmp(ss);
    var paging := PagingPieces(max, skip);
    var where := WherePieces(ws);
    assert NoneContains(paging, '&');
    assert NoneContains(where, '&');
    NoneContainsAppend(paging, where, '&');
    NoneContainsAppend(paging + where, SortPieces(ss), '&');
    SplitOnJoin(SelectPieces(max, skip, ws, ss), '&');
  }

  lemma AppendAssoc<T>(a: seq<T>, b: seq<T>, c: seq<T>)
    ensures a + b + c == a + (b + c)
  {
  }

  /** The script block without parameters is one '&'-led query parameter. */
  lemma ScriptNameJoin(u: string)
    ensures "&-script=" + u == Join(["", "-script=" + u], '&')
  {
    var head := "-script=" + u;
    assert "&-script=" == "&" + "-script=";
    AppendAssoc("&", "-script=", u);
    assert ["", head][1..] == [head];
  }

  /** The script block with parameters is two '&'-led query parameters. */
  lemma ScriptParamJoin(u: string, q: string)
    ensures "&-script=" + u + ("&-script.param=" + q) == Join(["", "-script=" + u, "-script.param=" + q], '&')
  {
    var head := "-script=" + u;
    var tail := "-script.param=" + q;
    assert "&-script=" == "&" + "-script=";
    AppendAssoc("&", "-script=", u);
    assert "&-script.param=" == "&" + "-script.param=";
    AppendAssoc("&", "-script.param=", q);
    assert ["", head, tail][1..] == [head, tail];
    assert [head, tail][1..] == [tail];
    assert Join([head, tail], '&') == head + "&" + tail;
    AppendAssoc(head, "&", tail);
    AppendAssoc("&", head, "&" + tail);
  }

  /** With no '&' in u, the parameterless script block splits into '' and '-script=' + u. */
  lemma ScriptNameSplit(u: string)
    requires '&' !in u
    ensures SplitOn("&-script=" + u, '&') == ["", "-script=" + u]
  {
    ScriptNameJoin(u);
    SplitOnJoin(["", "-script=" + u], '&');
  }

  /** With no '&' in u or q, the script block splits into '', '-script=' + u and '-script.param=' + q. */
  lemma ScriptParamSplit(u: string, q: string)
    requires '&' !in u && '&' !in q
    ensures SplitOn("&-script=" + u + ("&-script.param=" + q), '&') == ["", "-script=" + u, "-script.param=" + q]
  {
    ScriptParamJoin(u, q);
    SplitOnJoin(["", "-script=" + u, "-script.param=" + q], '&');
  }

  /** One more criterion adds its pieces at the end. */
  lemma EntriesStep(before: seq<string>, ws: seq<WhereCriterion>, i: nat)
    requires i < |ws|
    ensures before + EntriesPieces(ws[..i + 1]) == before + EntriesPieces(ws[..i]) + EntryPieces(ws[i])
  {
    assert ws[..i + 1][..i] == ws[..i];
    AppendAssoc(before, EntriesPieces(ws[..i]), EntryPieces(ws[i]));
  }

  /** One more sort entry adds its pieces at the end. */
  lemma SortStep(before: seq<string>, ss: seq<SortCriterion>, j: nat)
    requires j < |ss|
    ensures before + SortPieces(ss[..j + 1]) == before + SortPieces(ss[..j]) + SortEntryPieces(ss[j])
  {
    assert ss[..j + 1][..j] == ss[..j];
    AppendAssoc(before, SortPieces(ss[..j]), SortEntryPieces(ss[j]));
  }

  /** The `$amp` rule for '-max=' and '-skip='. */
  lemma PagingJoin(max: string, skip: string)
    ensures PhpEmpty(max) && PhpEmpty(skip) ==> Join(PagingPieces(max, skip), '&') == ""
    ensures !PhpEmpty(max) && PhpEmpty(skip) ==> Join(PagingPieces(max, skip), '&') == "-max=" + max
    ensures PhpEmpty(max) && !PhpEmpty(skip) ==> Join(PagingPieces(max, skip), '&') == "-skip=" + skip
    ensures !PhpEmpty(max) && !PhpEmpty(skip) ==>
      Join(PagingPieces(max, skip), '&') == "-max=" + max + "&" + "-skip=" + skip
  {
    if !PhpEmpty(max) && !PhpEmpty(skip) {
      assert PagingPieces(max, skip) == ["-max=" + max, "-skip=" + skip];
    }
  }

  /**
   * The body shared by Facade::select and RjakesSimpleFM::select up to the
   * script block: '-max=' and '-skip=' joined by the `$amp` rule, the
   * criteria then '&-find' or else '-findall', then the sort entries.
   */
  method RenderSelect(max: string, skip: string, where: seq<WhereCriterion>, sort: seq<SortCriterion>)
    returns (command: string)
    ensures command == Join(SelectPieces(max, skip, where, sort), '&')
  {
    ghost var paging := PagingPieces(max, skip);
    PagingJoin(max, skip);
    command := "";
    command := command + (if !PhpEmpty(max) then "-max=" + max else "");
    var amp := if PhpEmpty(command) then "" else "&";
    command := command + (if !PhpEmpty(skip) then amp + "-skip=" + skip else "");
    amp := if PhpEmpty(command) then "" else "&";
    assert command == Join(paging, '&');
    assert amp == if paging == [] then "" else "&";
    command := AppendCriteria(command, amp, paging, where);
    command := AppendSort(command, paging + WherePieces(where), sort);
  }

  /**
   * The where block of select: each criterion's 'field=value' after `$amp`
   * (then '&' always), its '&field.op=op' when op is PHP-non-empty, and
   * '&-find' after them; with no criteria, `$amp` and '-findall'.
   */
  method AppendCriteria(start: string, amp0: string, ghost before: seq<string>, where: seq<WhereCriterion>)
    returns (command: string)
    requires start == Join(before, '&')
    requires amp0 == if before == [] then "" else "&"
    ensures command == Join(before + WherePieces(where), '&')
  {
    command := start;
    var amp := amp0;
    ghost var pieces := before;
    if |where| > 0 {
      var i := 0;
      while i < |where|
        invariant 0 <= i <= |where|
        invariant pieces == before + EntriesPieces(where[..i])
        invariant command == Join(pieces, '&')
        invariant amp == if pieces == [] then "" else "&"
      {
        var c := where[i];
        EntriesStep(before, where, i);
        ghost var done := pieces;
        var piece := c.field + "=" + c.value;
        JoinSnocLead(pieces, piece, '&', amp);
        command := command + amp + piece;
        amp := "&";
        pieces := pieces + [piece];
        if !PhpEmpty(c.op) {
          var opPiece := c.field + ".op=" + c.op;
          JoinSnocLead(pieces, opPiece, '&', "&");
          command := command + "&" + opPiece;
          pieces := pieces + [opPiece];
          AppendAssoc(done, [piece], [opPiece]);
        }
        i := i + 1;
      }
      assert where[..i] == where;
      JoinSnocLead(pieces, "-find", '&', "&");
      command := command + "&" + "-find";
      AppendAssoc(before, EntriesPieces(where), ["-find"]);
    } else {
      JoinSnocLead(pieces, "-findall", '&', amp);
      command := command + amp + "-findall";
    }
  }

  /** The sort block of select: '&' and each field, then '&' and its order when PHP-non-empty. */
  method AppendSort(start: string, ghost before: seq<string>, sort: seq<SortCriterion>)
    returns (command: string)
    requires before != [] && start == Join(before, '&')
    ensures command == Join(before + SortPieces(sort), '&')
  {
    command := start;
    ghost var pieces := before;
    if |sort| > 0 {
      var j := 0;
      while j < |sort|
        invariant 0 <= j <= |sort|
        invariant pieces == before + SortPieces(sort[..j])
        invariant command == Join(pieces, '&')
      {
        var s := sort[j];
        SortStep(before, sort, j);
        ghost var done := pieces;
        JoinSnocLead(pieces, s.field, '&', "&");
        command := command + "&" + s.field;
        pieces := pieces + [s.field];
        if !PhpEmpty(s.order) {
          JoinSnocLead(pieces, s.order, '&', "&");
          command := command + "&" + s.order;
          pieces := pieces + [s.order];
          AppendAssoc(done, [s.field], [s.order]);
        }
        j := j + 1;
      }
      assert sort[..j] == sort;
    } else {
      assert before + SortPieces(sort) == before;
    }
  }

  // ---------------------------------------------------------------------
  // Command arrays of the record requests
  // ---------------------------------------------------------------------

  /** insert: the caller's fields with '-new' => '' set on them. */
  function InsertCommand(fields: OrderedMap): (r: OrderedMap)
    ensures Lookup(r, "-new") == Some("")
    ensures forall k :: k != "-new" ==> Lookup(r, k) == Lookup(fields, k)
    ensures KeysOf(r) == if "-new" in KeysOf(fields) then KeysOf(fields) else KeysOf(fields) + ["-new"]
    ensures "-new" !in KeysOf(fields) ==> r == fields + [("-new", "")]
    ensures DistinctKeys(fields) ==> DistinctKeys(r)
  {
    Put(fields, "-new", "")
  }

  /** update: the caller's fields, then '-edit' => '', then '-recid' => recId. */
  function UpdateCommand(fields: OrderedMap, recId: string): (r: OrderedMap)
    ensures Lookup(r, "-edit") == Some("") && Lookup(r, "-recid") == Some(recId)
    ensures forall k :: k != "-edit" && k != "-recid" ==> Lookup(r, k) == Lookup(fields, k)
    ensures KeysOf(r) == KeysOf(fields) + (if "-edit" in KeysOf(fields) then [] else ["-edit"])
      + (if "-recid" in KeysOf(fields) then [] else ["-recid"])
    ensures "-edit" !in KeysOf(fields) && "-recid" !in KeysOf(fields) ==>
      r == fields + [("-edit", ""), ("-recid", recId)]
    ensures DistinctKeys(fields) ==> DistinctKeys(r)
  {
    var edited := Put(fields, "-edit", "");
    assert fields + [("-edit", "")] + [("-recid", recId)] == fields + [("-edit", ""), ("-recid", recId)];
    Put(edited, "-recid", recId)
  }

  /** delete: exactly '-delete' => '' and '-recid' => recId. */
  function DeleteCommand(recId: string): (r: OrderedMap)
    ensures r == [("-delete", ""), ("-recid", recId)]
  {
    Put(Put([], "-delete", ""), "-recid", recId)
  }

  /** duplicate: exactly '-dup' => '' and '-recid' => recId. */
  function DuplicateCommand(recId: string): (r: OrderedMap)
    ensures r == [("-dup", ""), ("-recid", recId)]
  {
    Put(Put([], "-dup", ""), "-recid", recId)
  }
}

# RjakesSimpleFM command composition in Dafny

RjakesSimpleFM is a convenience layer over the SimpleFM adapter for FileMaker
Server. Its job is to turn find criteria, sort criteria and script settings
into a FileMaker "FMP XML/URL" query command, and to hand that command
(a query string, or an ordered array of key/value pairs for the CRUD
commands) to the adapter's `execute()`. The repository does this in two
places, and this project models both:

- `Facade` (`Facade.php`) is a stateful builder. It keeps lists of where
  criteria, sort criteria and script parameters, and it resolves the layout
  name: an explicit name wins, otherwise the default is used, otherwise it
  fails. It writes script parameters as `name=value||||`.
- `RjakesSimpleFM` (`RjakesSimpleFM.php`) takes the layout explicitly and
  reads its criteria from three value objects: `FMP_where`, `FMP_sort` and
  `FMP_script`. It writes script parameters as `$name="value" ; `.

The project is split into these modules:

- `PhpStrings` (`php_strings.dfy`) holds the PHP facts the builders rely on:
  - strings are byte strings;
  - `empty()` treats `"0"` like `''`;
  - integers are concatenated as decimal text;
  - `str_replace('"', '\"', ...)` escapes quotes;
  - the `&`-separated join that the `$amp` loops produce, with the split
    that undoes it.
- `UrlEncoding` (`url_encoding.dfy`) holds PHP's two percent-encoders, with
  decoders as partners:
  - `urlencode`: letters, digits and `-_.` pass, space becomes `+`, every
    other byte becomes `%XX`;
  - `rawurlencode`: percent-encoding as in section 2.1 of RFC 3986, where
    the unreserved set of section 2.3 passes.
- `OrderedMaps` (`ordered_maps.dfy`) holds PHP arrays with string keys. An
  assignment `$a[$k] = $v` replaces the value in place when the key exists,
  and appends the pair when it does not.
- `FmpCommand` (`fmp_command.dfy`) holds the parts both classes share:
  - the entry records;
  - the pieces of a select command;
  - the select rendering loop (`RenderSelect`), proved equal to those
    pieces joined by `&`;
  - the CRUD command arrays.
- `SimpleFmFacade` (`facade.dfy`) holds the class `Facade`.
- `RjakesSimpleFm` (`rjakes_simple_fm.dfy`) holds the classes `FmpWhere`,
  `FmpSort`, `FmpScript` and `RjakesSimpleFM`.

`execute()` belongs to the SimpleFM base adapter and is not part of this
model. Each CRUD method instead returns the `Request` it would dispatch: the
resolved layout and the command string or array. It also records that
command in the `commandstring` or `commandArray` field, as the source does.

The two `select` methods loop over their criteria in the same way, so both
call `RenderSelect`. For equal criteria, sort entries, `max` and `skip`,
their commands agree byte for byte up to the script block.

Some behaviour of the source is reproduced as written:

- `Facade::select` tests a local variable `$scriptName` that is never
  assigned. `empty()` of an undefined variable is true, so the Facade's
  select never appends the script block. `SimpleFmFacade.Facade.Select`
  states its command without one, whatever `scriptName` holds.
- `Facade::setLayoutName` assigns the layout name before it throws. After a
  failed resolution the layout name is therefore `''`.
- `Facade::addSortCriteria` leaves out the sort order only when the order is
  exactly `''`. `FMP_sort::add` leaves it out whenever the order is
  PHP-empty, which includes `"0"`. Any order other than `descend` is written
  as `ascend`.
- An `addScriptParameter`/`addParameter` call whose encoded name is
  PHP-empty stores nothing. The encoded name is PHP-empty exactly when the
  name is `''` or `"0"`.

Three details of the code's output are worth stating plainly:

- `urlencode` writes a space as `+`, so the field `Last Name` is stored as
  `Last+Name` (`UrlEncoding.UrlEncodeSpaces`).
- `FMP_script::getCommand` writes each parameter as `$name="value" ; `, with
  a leading `$` (RjakesSimpleFM.php:250).
- A sort criterion with an empty order writes no `-sortorder` piece at all;
  no direction is filled in.

## Model

| member | source | states |
|---|---|---|
| PhpStrings.NatToString | library/rjakes/RjakesSimpleFM/Facade.php:166-168 | the sort precedence is written as decimal digits, with no leading zero |
| PhpStrings.ParseNatToString | library/rjakes/RjakesSimpleFM/Facade.php:166-168 | reading those digits back gives the precedence number |
| PhpStrings.EscapeQuotes | library/rjakes/RjakesSimpleFM/Facade.php:384 | every `"` in the escaped value is preceded by a backslash, and the value gets no shorter |
| PhpStrings.UnescapeEscape | library/rjakes/RjakesSimpleFM/Facade.php:384 | escaping loses nothing: unescaping gives the original value back |
| UrlEncoding.UrlEncode | library/rjakes/RjakesSimpleFM/Facade.php:114-115 | urlencode writes only letters, digits, `-_.`, `+` and `%`, and never shortens its input |
| UrlEncoding.UrlDecodeEncode | library/rjakes/RjakesSimpleFM/Facade.php:114-115 | urldecode gives back exactly the bytes urlencode was given |
| UrlEncoding.RawUrlEncode | library/rjakes/RjakesSimpleFM/Facade.php:383-384 | rawurlencode writes only RFC 3986 unreserved characters and `%`, and never shortens its input |
| UrlEncoding.RawUrlDecodeEncode | library/rjakes/RjakesSimpleFM/Facade.php:383-384 | rawurldecode gives back exactly the bytes rawurlencode was given |
| UrlEncoding.UrlEncodeSpaces | library/rjakes/RjakesSimpleFM/Facade.php:114-115 | urlencode keeps letters, digits and `-_.` and writes a space as `+`, one character for one |
| UrlEncoding.UrlEncodeKeeps | library/rjakes/RjakesSimpleFM/Facade.php:114-115 | a text of letters, digits and `-_.` is urlencoded to itself |
| UrlEncoding.RawUrlEncodeKeeps | library/rjakes/RjakesSimpleFM/Facade.php:383-384 | a text of RFC 3986 unreserved characters is rawurlencoded to itself |
| UrlEncoding.RawUrlEncodeEmpty | library/rjakes/RjakesSimpleFM/Facade.php:383-386 | the encoded name is PHP-empty if and only if the name is `''` or `"0"` |
| OrderedMaps.Lookup | library/rjakes/RjakesSimpleFM/Facade.php:250-252 | a key has a value if and only if it is one of the array's keys |
| OrderedMaps.Put | library/rjakes/RjakesSimpleFM/Facade.php:251-252 | `$a[$k] = $v` maps k to v and leaves every other key's value alone; an existing key keeps its place and a new one is appended; distinct keys stay distinct |
| FmpCommand.WhereEntry | library/rjakes/RjakesSimpleFM/Facade.php:114-116 | a stored criterion urldecodes to the given field and value, keeps the operator unchanged, and has no `&` or `=` in its field and no `&` in its value |
| FmpCommand.ParameterEntry | library/rjakes/RjakesSimpleFM/Facade.php:383-388 | a stored parameter is rawurlencoded; decoding gives the name back, and decoding then unescaping gives the value back |
| FmpCommand.NumberedRoundTrip | library/rjakes/RjakesSimpleFM/Facade.php:168-172 | a `-sortfield.N=` or `-sortorder.N=` text is read back as the number N and the text after `=` |
| FmpCommand.SortFieldRoundTrip | library/rjakes/RjakesSimpleFM/Facade.php:168 | a sort field text is read back as its precedence and the urlencoded field, and that field decodes to the given one |
| FmpCommand.EntriesPiecesShape | library/rjakes/RjakesSimpleFM/Facade.php:282-296 | every criterion piece holds an `=`, and the first piece is the first criterion's `field=value` |
| FmpCommand.FindXorFindAll | library/rjakes/RjakesSimpleFM/Facade.php:279-300 | `-find` is a piece if and only if there are criteria, and `-findall` is a piece if and only if there are none |
| FmpCommand.PagingJoin | library/rjakes/RjakesSimpleFM/Facade.php:272-276 | `-max=` and `-skip=` appear only when PHP-non-empty, with one `&` between them when both do |
| FmpCommand.SelectNoLeadingSeparator | library/rjakes/RjakesSimpleFM/Facade.php:272-290 | the select command is never empty and never starts with `&` when the first criterion's field does not |
| FmpCommand.SelectSplitsIntoPieces | library/rjakes/RjakesSimpleFM/Facade.php:272-317 | when no stored text contains `&`, splitting the command at `&` gives back exactly its pieces in order |
| FmpCommand.RenderSelect | library/rjakes/RjakesSimpleFM/Facade.php:272-317 | the `$amp` loops produce the paging, criteria and sort pieces joined by single `&` separators |
| FmpCommand.AppendCriteria | library/rjakes/RjakesSimpleFM/Facade.php:279-300 | the where block appends `field=value` and, when the operator is PHP-non-empty, `field.op=op` per criterion in order, then `-find`; with no criteria it appends `-findall` |
| FmpCommand.AppendSort | library/rjakes/RjakesSimpleFM/Facade.php:302-317 | the sort block appends each sort field in order, each followed by its order when that is PHP-non-empty |
| FmpCommand.InsertCommand | library/rjakes/RjakesSimpleFM/Facade.php:339-341 | the fields with `-new` set to `''`: other keys unchanged, `-new` keeps its place when already a key and is appended otherwise, distinct keys kept |
| FmpCommand.UpdateCommand | library/rjakes/RjakesSimpleFM/Facade.php:250-252 | the fields with `-edit` set to `''` and `-recid` set to the record id: other keys unchanged, a key already present keeps its place, each absent one is appended in that order, distinct keys kept |
| FmpCommand.DeleteCommand | library/rjakes/RjakesSimpleFM/Facade.php:211-212 | exactly `-delete => ''`, then `-recid =>` the record id |
| FmpCommand.DuplicateCommand | library/rjakes/RjakesSimpleFM/Facade.php:229-230 | exactly `-dup => ''`, then `-recid =>` the record id |
| SimpleFmFacade.ResolveLayout | library/rjakes/RjakesSimpleFM/Facade.php:76-89 | an explicit name other than `''` wins, else the default; it fails if and only if both are `''` |
| SimpleFmFacade.SortEntryReadsBack | library/rjakes/RjakesSimpleFM/Facade.php:165-176 | entry n+1 reads back as precedence n+1 and the urlencoded field; it has no order exactly when the order is `''`, otherwise `descend` for `descend` and `ascend` for anything else |
| SimpleFmFacade.SortEntryKeepsOrder | library/rjakes/RjakesSimpleFM/Facade.php:165-177 | appending that entry keeps precedence i+1 at every index i |
| SimpleFmFacade.PipeParamsRoundTrip | library/rjakes/RjakesSimpleFM/Facade.php:428-432 | stored parameters written as `name=value` followed by four vertical bars are read back one for one, in order |
| SimpleFmFacade.ScriptCommandPieces | library/rjakes/RjakesSimpleFM/Facade.php:421-435 | the script command splits at `&` into exactly `-script=`+name and, when there are parameters, `-script.param=`+list |
| SimpleFmFacade.Facade.constructor | library/rjakes/RjakesSimpleFM/Facade.php:28-48 | the default layout and script name are `''`; the criteria, sort and parameter lists are empty |
| SimpleFmFacade.Facade.SetDefaultLayoutName | library/rjakes/RjakesSimpleFM/Facade.php:55-59 | the default layout name becomes the given name |
| SimpleFmFacade.Facade.SetLayoutName | library/rjakes/RjakesSimpleFM/Facade.php:76-89 | the result is the layout resolution, and the layout name is the resolved name, or `''` on failure |
| SimpleFmFacade.Facade.AddWhereCriteria | library/rjakes/RjakesSimpleFM/Facade.php:111-119 | exactly one entry is appended after the old ones: the urlencoded field and value and the operator |
| SimpleFmFacade.Facade.GetWhereCriteria | library/rjakes/RjakesSimpleFM/Facade.php:125-129 | returns the stored criteria |
| SimpleFmFacade.Facade.SetWhereCriteria | library/rjakes/RjakesSimpleFM/Facade.php:148-153 | replaces the stored criteria |
| SimpleFmFacade.Facade.AddSortCriteria | library/rjakes/RjakesSimpleFM/Facade.php:162-179 | exactly one sort entry, with precedence count+1, is appended; precedences stay in list order |
| SimpleFmFacade.Facade.SetSortCriteria | library/rjakes/RjakesSimpleFM/Facade.php:187-191 | replaces the stored sort entries |
| SimpleFmFacade.Facade.GetSortCriteria | library/rjakes/RjakesSimpleFM/Facade.php:197-200 | returns the stored sort entries |
| SimpleFmFacade.Facade.Delete | library/rjakes/RjakesSimpleFM/Facade.php:208-217 | fails, with no command, if and only if the layout does not resolve; otherwise it dispatches the delete array on the resolved layout |
| SimpleFmFacade.Facade.Duplicate | library/rjakes/RjakesSimpleFM/Facade.php:226-237 | fails, with no command, if and only if the layout does not resolve; otherwise it dispatches the duplicate array on the resolved layout |
| SimpleFmFacade.Facade.Update | library/rjakes/RjakesSimpleFM/Facade.php:246-259 | fails, with no command, if and only if the layout does not resolve; otherwise it dispatches the update array on the resolved layout |
| SimpleFmFacade.Facade.Select | library/rjakes/RjakesSimpleFM/Facade.php:268-327 | fails, with no command, if and only if the layout does not resolve; otherwise the command is the select pieces of the stored criteria joined by `&`, with no script block |
| SimpleFmFacade.Facade.Insert | library/rjakes/RjakesSimpleFM/Facade.php:335-349 | fails, with no command, if and only if the layout does not resolve; otherwise it dispatches the insert array on the resolved layout |
| SimpleFmFacade.Facade.SetScriptName | library/rjakes/RjakesSimpleFM/Facade.php:356-361 | the script name becomes the given name |
| SimpleFmFacade.Facade.GetScriptName | library/rjakes/RjakesSimpleFM/Facade.php:367-371 | returns the script name |
| SimpleFmFacade.Facade.AddScriptParameter | library/rjakes/RjakesSimpleFM/Facade.php:379-392 | nothing is stored when the name is `''` or `"0"`; otherwise exactly one encoded parameter is appended; the list stays encoded |
| SimpleFmFacade.Facade.SetScriptParameters | library/rjakes/RjakesSimpleFM/Facade.php:400-404 | replaces the stored parameters |
| SimpleFmFacade.Facade.GetScriptParameters | library/rjakes/RjakesSimpleFM/Facade.php:410-413 | returns the stored parameters |
| SimpleFmFacade.Facade.MakeScriptCommand | library/rjakes/RjakesSimpleFM/Facade.php:421-435 | `&-script=` and the urlencoded name, then `&-script.param=` and one `name=value` and four vertical bars per parameter in order, only when there are parameters |
| SimpleFmFacade.Facade.ExecuteFmScript | library/rjakes/RjakesSimpleFM/Facade.php:445-460 | the script name is set only when a name other than `''` is given; it fails if and only if the layout does not resolve; otherwise the command is `-findany` followed by the script command |
| RjakesSimpleFm.FmpSortEntryReadsBack | library/rjakes/RjakesSimpleFM/RjakesSimpleFM.php:191-202 | entry n+1 reads back as precedence n+1 and the urlencoded field; it has no order exactly when the order is PHP-empty, otherwise `descend` for `descend` and `ascend` for anything else |
| RjakesSimpleFm.FmpSortEntryKeepsOrder | library/rjakes/RjakesSimpleFM/RjakesSimpleFM.php:191-202 | appending that entry keeps precedence i+1 at every index i |
| RjakesSimpleFm.QuotedParamsRoundTrip | library/rjakes/RjakesSimpleFM/RjakesSimpleFM.php:248-251 | stored parameters written as `$name="value" ; ` are read back one for one, in order, because an encoded value holds no `"` |
| RjakesSimpleFm.QuotedScriptCommandPieces | library/rjakes/RjakesSimpleFM/RjakesSimpleFM.php:243-255 | the script command splits at `&` into exactly `-script=`+name and, when there are parameters, `-script.param=`+list |
| RjakesSimpleFm.FmpWhere.constructor | library/rjakes/RjakesSimpleFM/RjakesSimpleFM.php:155-160 | one criterion when the field is PHP-non-empty, none otherwise |
| RjakesSimpleFm.FmpWhere.Add | library/rjakes/RjakesSimpleFM/RjakesSimpleFM.php:162-170 | exactly one entry is appended after the old ones: the urlencoded field and value and the operator |
| RjakesSimpleFm.FmpSort.constructor | library/rjakes/RjakesSimpleFM/RjakesSimpleFM.php:182-187 | one entry with precedence 1 when the field is PHP-non-empty, none otherwise |
| RjakesSimpleFm.FmpSort.Add | library/rjakes/RjakesSimpleFM/RjakesSimpleFM.php:189-205 | exactly one sort entry, with precedence count+1, is appended; precedences stay in list order |
| RjakesSimpleFm.FmpScript.constructor | library/rjakes/RjakesSimpleFM/RjakesSimpleFM.php:219-223 | the script name is the given name and there are no parameters |
| RjakesSimpleFm.FmpScript.AddParameter | library/rjakes/RjakesSimpleFM/RjakesSimpleFM.php:225-236 | nothing is stored when the name is `''` or `"0"`; otherwise exactly one encoded parameter is appended; the list stays encoded |
| RjakesSimpleFm.FmpScript.GetCommand | library/rjakes/RjakesSimpleFM/RjakesSimpleFM.php:243-255 | `&-script=` and the urlencoded name, then `&-script.param=` and one `$name="value" ; ` per parameter in order, only when there are parameters |
| RjakesSimpleFm.RjakesSimpleFM.Delete | library/rjakes/RjakesSimpleFM/RjakesSimpleFM.php:25-35 | dispatches the delete array on the given layout |
| RjakesSimpleFm.RjakesSimpleFM.Duplicate | library/rjakes/RjakesSimpleFM/RjakesSimpleFM.php:37-48 | dispatches the duplicate array on the given layout |
| RjakesSimpleFm.RjakesSimpleFM.Update | library/rjakes/RjakesSimpleFM/RjakesSimpleFM.php:50-63 | dispatches the update array on the given layout |
| RjakesSimpleFm.RjakesSimpleFM.Select | library/rjakes/RjakesSimpleFM/RjakesSimpleFM.php:65-118 | the select pieces of the where and sort objects (none for a null object) joined by `&`, then the script command if and only if the script's name is PHP-non-empty |
| RjakesSimpleFm.RjakesSimpleFM.Insert | library/rjakes/RjakesSimpleFM/RjakesSimpleFM.php:120-134 | dispatches the insert array on the given layout |
| RjakesSimpleFm.RjakesSimpleFM.ServerScript | library/rjakes/RjakesSimpleFM/RjakesSimpleFM.php:137-146 | the command is `-findany` followed by the script's command, on the given layout |

## Left out

- `Adapter::execute()`, `setCommandarray`, the HTTP request, the final URL
  assembly and the XML parsing belong to the SimpleFM base adapter, which is
  not part of this model. Dispatch is modelled as the returned `Request`
  together with the recorded `commandstring` or `commandArray`.
- `RjakesSimpleFM::setLayoutname` is the base adapter's plain setter. It is
  modelled as assigning the layout name, with no fallback and no failure.
- The thrown `Exception\ErrorException` is modelled as the `Err` result
  `LayoutNameNotSpecified`.
- `getDefaultLayoutName` is not modelled. It reads the misspelled property
  `defaultLayoutname`, which is never set, so it does not return the default.
- The `get()` methods of `FMP_where`, `FMP_sort` and `FMP_script` return the
  object itself. Like the `return $this` of every Facade setter, this is
  call chaining only.
- The `set*Criteria` and `setScriptParameters` setters take lists of
  well-formed entries, indexed from 0. Arrays with missing keys, non-string
  values or other integer keys rely on PHP's loose typing and are not
  modelled. For such arrays, the `count()`-indexed append of the `add`
  methods could overwrite an entry.
- PHP's loose comparison and `empty()` on non-string values (null, arrays,
  objects) are not modelled. Every input is a string, and the source's null
  defaults are passed as `''`. A null `$where`, `$sort` or `$script` in
  `RjakesSimpleFM::select` is modelled as a null object reference.
- PHP casts numeric-string array keys such as `"5"` to integers. The
  ordered maps compare keys as strings.

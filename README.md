# genetik-app variant-annotation core, modelled in Dafny

genetik-app is a Streamlit tool for interpreting genetic variants. A user uploads a VCF or CSV
file. The app matches its variants against a ClinVar reference table and attaches a ClinGen
gene-disease validity class to each match. For every matched variant it then fetches PubMed ids
from NCBI ELink and allele frequencies from gnomAD. Finally it asks an LLM for a clinical
commentary and collects one result record per variant. A separate helper summarises a dbSNP
refsnp record into a line of ClinVar significances.

This project models the deterministic data path of that tool and proves properties of it:

- `ClinvarParser` covers the seven INFO-field extractors and `enrich_clinvar_df`. Each extractor
  scans for the leftmost match of a fixed pattern (key, then a maximal run of one character class),
  and the enrichment assigns seven derived columns to a frame in place.
- `ClingenHandler` covers the shaping of the raw ClinGen sheet (`load_clingen_validity` after the
  file read) and the first-match classification lookup.
- `App` covers the `parse_vcf` line loop, the required-column check, the in-place `astype(str)`
  normalisation of the four key columns, the left join with the ClinVar table, the ClinGen column,
  the non-null `ID` filter and the per-row result loop.
- `PubmedHandler` covers the ELink reply walk and `build_pubmed_links`.
- `GnomadHandler` covers the variant id and the reply-to-record mapping of `get_gnomad_frequencies`.
- `ClinvarApi` covers the refsnp reply-to-summary logic of `get_clinvar_data`.

These rest on supporting modules:

- `PyValues` models Python values as one datatype that serves as JSON tree, dict and pandas cell.
  It also holds exceptions with their `str(e)` text, and `dict.get`, `d[k]`, `in`, iteration,
  `repr`, `int()` and dict literal/spread semantics.
- `PyText` holds the string built-ins the code relies on: `strip`, `split`, `join`, `str(int)` and `int(str)`.
- `Http` turns a request outcome into an exception or a response, with `raise_for_status` and `.json()`.
- `Tables` models pandas frames as a header plus positional rows. It provides column access,
  column assignment, `astype(str)`, the `notna` filter and `pd.merge(..., how="left")` with the
  `_x`/`_y` suffix rule. The class `Tables.Frame` is a frame whose columns are updated in place.
- `Wrappers` holds `Option`, `Result` and `Gather`, which collects a run of results up to the first failure.

Network replies, the LLM and the gnomAD fetcher used by the result loop are inputs. They appear
as an `Http.HttpOutcome` value or as fields of `App.Services`. Functions, lemmas and
state-changing methods follow the flavour of each source file. Loops that append (`parse_vcf`,
the ELink walk, the refsnp assertion loop, the result loop) are methods with loop invariants,
proved equal to a recursive function of their inputs. In-place column updates are methods of `Tables.Frame`.

Where the behaviour described for the system and the code disagree, the model follows the code:

- The merge is a pandas left join, so an uploaded variant with several reference rows appears
  several times. There is no first-match deduplication.
- The PubMed id list is not capped.
- A null gnomAD `data`/`variant` lands on the exception path (`'NoneType' object has no attribute 'get'`).
  It is not reported as a "no data" success.

## Model

| member | source | states |
|---|---|---|
| `Wrappers.GatherAll` | app.py:145-199 | collecting a run of results succeeds iff every one succeeds, then holds their values in order, and otherwise fails with the first failure |
| `PyText.Strip` | app.py:84 | `line.strip()` is a slice of the line that drops only whitespace at either end and neither starts nor ends with whitespace |
| `PyText.Split` | app.py:84 | `split("\t")` gives at least one piece, no piece holds a tab, and joining the pieces with a tab gives the text back |
| `PyText.SplitJoin` | app.py:84 | splitting a tab-join of tab-free fields gives exactly those fields back |
| `PyText.NatToString` | app.py:150 | `str(n)` of a natural is a nonempty digit string with no leading zero |
| `PyText.NatToStringValue` | app.py:150 | the digits `str(n)` writes denote `n` |
| `PyText.IntToStringInjective` | clinvar_api.py:9 | different status codes give different texts |
| `PyText.ParseIntOfIntToString` | app.py:87 | `int(str(i)) == i` for every integer |
| `PyText.ParseInt` | app.py:87 | `int(text)`: the value of an optionally signed, whitespace-padded decimal numeral with single `_` separators, None for any other text |
| `PyText.DropUnderscores` | app.py:87 | removing `_` digit separators leaves only digits and leaves an all-digit text unchanged |
| `PyValues.KeyIndex` | app.py:194-199 | a dict key's position is its first occurrence, or the length when absent |
| `PyValues.Lookup` | gnomad_handler.py:42-49 | a dict has a value for a key iff one of its entries carries that key |
| `PyValues.Get` | clinvar_api.py:16-22 | `v.get(k, d)` raises `AttributeError` "'T' object has no attribute 'get'" exactly when `v` is not a dict, and gives `d` for a missing key |
| `PyValues.Item` | clinvar_api.py:12 | `v[k]` succeeds iff `v` is a dict holding `k`, and then gives that entry's value |
| `PyValues.First` | pubmed_handler.py:16 | `linksets[0]` of a nonempty list is its first item |
| `PyValues.Contains` | gnomad_handler.py:34 | `k in d` on a dict is key membership |
| `PyValues.Iter` | clinvar_api.py:15 | iterating a list yields its items; iterating a text or a dict yields one item per character or key |
| `PyValues.FirstNonStr` | app.py:177 | the position of the first non-text item, all items before it being texts |
| `PyValues.JoinStrs` | clinvar_api.py:23 | `sep.join(items)` succeeds iff every item is a string, and then is the join of their texts |
| `PyValues.ToInt` | app.py:87 | `int(i)` of an int is itself; `int(s)` of a text succeeds iff the text is a Python integer literal, giving its value |
| `PyValues.EscapedPlain` | clinvar_api.py:27 | text without quotes, backslashes or control characters needs no escaping in `repr` |
| `PyValues.StrReprPlain` | clinvar_api.py:27 | `repr` of such text is the text in single quotes |
| `PyValues.KeyErrorPlain` | clinvar_api.py:27 | `str(KeyError(k))` of such a key is the key in single quotes |
| `PyValues.Message` | clinvar_api.py:27 | `str(e)` of an exception: a `KeyError` gives the repr of its key, a `NameError` the not-defined text, any other exception its message |
| `PyValues.PutEntry` | app.py:194-199 | after `d[k] = v` the key maps to `v`, every other key is unchanged, an existing key keeps its place and a new one goes last |
| `PyValues.LookupCons` | app.py:194-199 | looking up a key in a dict that starts with an entry checks that entry first |
| `PyValues.LookupSingle` | gnomad_handler.py:46-49 | a one-entry dict maps its key to its value |
| `PyValues.KeyIndexAt` | app.py:194-199 | the first entry carrying a key is the one `KeyIndex` finds |
| `PyValues.LookupAfterReplace` | app.py:194-199 | overwriting one key's entry leaves every other key's value unchanged |
| `PyValues.LookupAfterAppend` | app.py:194-199 | appending an entry for one key leaves every other key's value unchanged |
| `PyValues.PutAllAbsent` | app.py:197 | spreading `**more` into a dict leaves alone every key that `more` does not hold |
| `PyValues.PutAllPresent` | app.py:197 | after spreading a dict with distinct keys, each of its keys maps to its value there |
| `PyValues.PutAllKeys` | app.py:194-199 | after a spread, a key is present iff it was present before or is brought by the spread dict |
| `Http.RaiseForStatus` | pubmed_handler.py:13 | `raise_for_status` raises exactly for status codes 400 to 599 |
| `Http.DecodeJson` | pubmed_handler.py:14 | `.json()` succeeds exactly on a body that is JSON |
| `Http.CheckedJson` | gnomad_handler.py:21-32 | a raised request gives its `HttpError`, a 4xx/5xx status gives an `HttpError`, and any other response gives the decoded body or its decode error |
| `Tables.ColumnIndex` | app.py:138 | a column's position is its first occurrence in the header, or the width when absent |
| `Tables.ColumnIndexOfDistinct` | app.py:138 | in a header without duplicates, each name is found at its own position |
| `Tables.Column` | clinvar_parser.py:47 | `t[name]` succeeds iff the column exists, raises `KeyError(name)` otherwise, and holds each row's cell in row order |
| `Tables.WithColumn` | clinvar_parser.py:47-53 | `t[name] = values` overwrites an existing column in place or appends a new one at the right, sets every row's cell, and keeps every other cell |
| `Tables.ColumnIndexOfPrefix` | clinvar_parser.py:47-53 | appending a column does not move the existing ones |
| `Tables.AsStr` | app.py:137 | `astype(str)` gives text and leaves text unchanged |
| `Tables.StrColumn` | app.py:137 | converting one column to text changes only that column's cells, each to its text form |
| `Tables.StrColumnIdempotent` | app.py:136-137 | converting a column to text twice is the same as once |
| `Tables.KeepPresent` | app.py:140 | `t[t[name].notna()]` raises `KeyError` iff the column is missing, and otherwise keeps the header and the rows whose cell is not NA |
| `Tables.PresentRows` | app.py:140 | every kept row is an input row with a non-NA cell, and every such input row is kept |
| `Tables.PresentRowsAppend` | app.py:140 | the filter keeps row order: it distributes over concatenation |
| `Tables.NonKey` | app.py:138 | the right frame's non-key columns are exactly the columns not in the key |
| `Tables.JoinedColumns` | app.py:138 | the merged header is the suffixed left labels followed by the suffixed right non-key labels, one per column |
| `Tables.CrossSideClash` | app.py:138 | an upload column `c_y` beside an overlapping column `c` passes the pandas suffix check, and the merged header then repeats `c_y` |
| `Tables.Matches` | app.py:138 | the right rows joined to a left row are right rows whose key cells equal the left row's, and every right row with equal key cells is among them |
| `Tables.MatchesSingle` | app.py:138 | a single right row is joined exactly when its key cells equal the left row's |
| `Tables.MatchesAppend` | app.py:138 | the matches of two blocks of right rows are the first block's followed by the second's, so matches keep right-frame order |
| `Tables.RightPart` | app.py:138 | a right row contributes one cell per non-key column |
| `Tables.Block` | app.py:138 | each left row yields as many merged rows as it has matches, or one when it has none, and each begins with the left row |
| `Tables.BlockContents` | app.py:138 | with k ≥ 1 matches the left row appears k times followed by each match's non-key cells, in order; with none it appears once followed by NaN |
| `Tables.JoinRows` | app.py:138 | the merged rows are at least as many as the left rows and all have the merged width |
| `Tables.LeftJoin` | app.py:138 | the merge succeeds iff the suffixed left labels are distinct among themselves and the suffixed right labels are distinct among themselves (pandas raises `MergeError` otherwise; a left label may still equal a right one), and then has the joined header and rows |
| `Tables.LeftJoinWellFormed` | app.py:138 | when all merged labels differ, the merge succeeds and is a well-formed frame |
| `Tables.JoinRowsAppend` | app.py:138 | the merge follows the uploaded order: it distributes over concatenation of left rows |
| `Tables.JoinRowsSize` | app.py:138 | the merged row count is the sum over left rows of max(matches, 1) |
| `Tables.JoinRowsOneToOne` | app.py:138 | when no left row has more than one match, there is one merged row per left row, in order, each beginning with that row |
| `Tables.Frame.constructor` | app.py:56 | a frame object holds exactly the given table |
| `Tables.Frame.Assign` | clinvar_parser.py:47-53 | an in-place column assignment replaces the frame's table with the table carrying that column |
| `Tables.Frame.AsTypeStr` | app.py:137 | `df[c] = df[c].astype(str)` raises `KeyError(c)` and leaves the frame unchanged iff `c` is missing, and otherwise converts exactly that column |
| `ClinvarParser.RunEnd` | clinvar_parser.py:7 | the `+` quantifier takes the maximal run of class characters from a position |
| `ClinvarParser.FirstMatch` | clinvar_parser.py:7 | the scan stops at the first position where the key is followed by a class character |
| `ClinvarParser.Search` | clinvar_parser.py:7 | `re.search` finds nothing iff the pattern matches nowhere; otherwise the capture is the maximal run after the leftmost unanchored key occurrence, nonempty and all in the class |
| `ClinvarParser.CapturesUnique` | clinvar_parser.py:13 | the leftmost-then-maximal capture is unique |
| `ClinvarParser.FirstMatchIs` | clinvar_parser.py:7 | the scan finds the leftmost match position |
| `ClinvarParser.RunEndIs` | clinvar_parser.py:7 | the run end is the first position after the run |
| `ClinvarParser.SearchOfEntry` | clinvar_parser.py:13 | an INFO text holding `KEY=v` as its first match, with `v` ended by a non-class character, yields `v` |
| `ClinvarParser.Underscored` | clinvar_parser.py:20 | `replace("_", " ")` keeps the length, changes exactly the underscores into spaces and leaves no underscore |
| `ClinvarParser.ExtractGene` | clinvar_parser.py:4-8 | NA gives None; otherwise the `GENEINFO=` search result, nonempty over `A-Z`, `0-9` and `-`, so `split(":")[0]` never shortens it |
| `ClinvarParser.ExtractClnsig` | clinvar_parser.py:10-14 | NA gives None; None iff `CLNSIG=` is never followed by a non-`;` character; otherwise the leftmost maximal capture, nonempty and without `;` |
| `ClinvarParser.ExtractDisease` | clinvar_parser.py:16-20 | NA gives None; None iff `CLNDN=` never matches; otherwise the capture with underscores turned into spaces, nonempty, without `;` or `_` |
| `ClinvarParser.ExtractRs` | clinvar_parser.py:22-26 | NA gives None; None iff `RS=` is never followed by a digit; otherwise the leftmost maximal digit run |
| `ClinvarParser.ExtractClnvc` | clinvar_parser.py:28-32 | NA gives None; None iff `CLNVC=` never matches; otherwise the leftmost maximal capture, nonempty and without `;` |
| `ClinvarParser.ExtractClnhgvs` | clinvar_parser.py:34-38 | NA gives None; None iff `CLNHGVS=` never matches; otherwise the leftmost maximal capture, nonempty and without `;` |
| `ClinvarParser.ExtractClnrevstat` | clinvar_parser.py:40-44 | NA gives None; None iff `CLNREVSTAT=` never matches; otherwise the capture with underscores turned into spaces, nonempty, without `;` or `_` |
| `ClinvarParser.ExtractOfEntry` | clinvar_parser.py:4-44 | every extractor reads back the value of a written `KEY=v` entry (respaced for `CLNDN` and `CLNREVSTAT`) |
| `ClinvarParser.Extract` | clinvar_parser.py:4-44 | the extractor applied for each of the seven INFO fields; what each one returns is stated in the `ClinvarParser.ExtractGene` to `ClinvarParser.ExtractClnrevstat` rows |
| `ClinvarParser.ExtractBySearch` | clinvar_parser.py:4-44 | every extractor is its pattern's search, respaced where the source replaces underscores |
| `ClinvarParser.InfoText` | clinvar_parser.py:5-7 | an INFO cell is readable iff it is NA or text; any other scalar cell makes `re.search` raise `TypeError` (list-valued cells are outside the model, see Left out) |
| `ClinvarParser.Extracted` | clinvar_parser.py:47 | `apply` gives one derived value per INFO cell |
| `ClinvarParser.FirstUnreadable` | clinvar_parser.py:47 | `apply` raises at the first unreadable INFO cell |
| `ClinvarParser.ApplyExtractor` | clinvar_parser.py:47 | `df["INFO"].apply(f)` succeeds iff every INFO cell is readable, else fails with the first unreadable cell's error (for scalar cells) |
| `ClinvarParser.Assigned` | clinvar_parser.py:47-53 | assigning derived columns keeps the row count and every old column, and adds every assigned name |
| `ClinvarParser.AssignedColumns` | clinvar_parser.py:47-53 | the header after the assignments is the old header followed by the names it lacked, in assignment order |
| `ClinvarParser.AssignedDerived` | clinvar_parser.py:47-53 | each derived cell is that row's extractor result on that row's INFO alone |
| `ClinvarParser.AssignedKept` | clinvar_parser.py:47-53 | cells of columns that are not assigned are unchanged |
| `ClinvarParser.EnrichClinvarDf` | clinvar_parser.py:46-54 | the frame is updated in place: a missing INFO column or a scalar INFO cell that is neither NA nor text raises before any column is written and leaves the frame unchanged; otherwise the frame becomes the enriched table |
| `ClinvarParser.Enriched` | clinvar_parser.py:46-54 | the frame after the seven assignments, or the exception of the first extractor that raises |
| `ClinvarParser.AssignedStep` | clinvar_parser.py:47-53 | one more assignment is one more in-place column write |
| `ClinvarParser.ColumnUnchanged` | clinvar_parser.py:47-53 | writing one column leaves every other column unchanged |
| `ClinvarParser.EnrichedColumns` | clinvar_parser.py:46-54 | enrichment keeps the row count and appends the missing derived column names in the order GENE, CLNSIG, DISEASE, RS, CLNVC, CLNHGVS, CLNREVSTAT |
| `ClinvarParser.EnrichedDerived` | clinvar_parser.py:46-54 | each derived cell of each row is its extractor applied to that row's INFO |
| `ClinvarParser.EnrichedKept` | clinvar_parser.py:46-54 | every other column's cells are unchanged |
| `ClinvarParser.AddedFresh` | clinvar_parser.py:47-53 | for a header lacking all of them, the assigned names are appended exactly as listed |
| `ClinvarParser.AddedToFreshFrame` | clinvar_parser.py:47-53 | a frame lacking the derived columns gains exactly GENE, CLNSIG, DISEASE, RS, CLNVC, CLNHGVS, CLNREVSTAT |
| `ClingenHandler.LabelIndex` | clingen_handler.py:7-8 | a label is looked up at its first column in the promoted header row |
| `ClingenHandler.Locate` | clingen_handler.py:8 | selecting the three columns succeeds iff the header row holds GENE SYMBOL, DISEASE LABEL and CLASSIFICATION, and finds each under its label |
| `ClingenHandler.DropIncomplete` | clingen_handler.py:8 | `dropna()` never adds rows |
| `ClingenHandler.LoadClingenValidity` | clingen_handler.py:3-12 | the shaped table is `ClingenValidity(raw)`, and it is the empty frame iff the file could not be read, has no header row (fewer than five rows) or lacks one of the three labels |
| `ClingenHandler.ClingenValidity` | clingen_handler.py:3-12 | the three-column table from row 5 on, headed by row 4, with incomplete rows dropped; the empty frame when the read failed, the grid has no header row or a label is missing |
| `ClingenHandler.DropIncompleteMembers` | clingen_handler.py:8 | the kept rows are exactly the three-column projections of data rows with all three present |
| `ClingenHandler.DropIncompleteAppend` | clingen_handler.py:6-8 | data rows keep their original order |
| `ClingenHandler.DropIncompleteKeepsComplete` | clingen_handler.py:8 | when every row is complete, every row is kept, in order |
| `ClingenHandler.FirstForGene` | clingen_handler.py:15-17 | the lookup stops at the first row whose GENE SYMBOL equals the query |
| `ClingenHandler.Classification` | clingen_handler.py:14-18 | on the empty frame the lookup raises `KeyError('GENE SYMBOL')`; otherwise, for a scalar gene, the first exact match's CLASSIFICATION, or "Yok" when no row matches |
| `ClingenHandler.NonTextGeneIsYok` | clingen_handler.py:15-18 | a scalar gene that is not text (such as None or NaN) matches no row and gives "Yok" |
| `ClingenHandler.FirstCompleteFound` | clingen_handler.py:8-17 | looking up the gene of the first complete data row that carries it gives that row's classification |
| `ClingenHandler.LookupAfterLoad` | clingen_handler.py:3-18 | after shaping, the lookup of a gene gives the classification of the first complete row of the sheet for that gene |
| `PubmedHandler.CollectedStaysFailed` | pubmed_handler.py:19-24 | once an access in the loop raises, the rest of the loop cannot recover |
| `PubmedHandler.CollectPubmedLinks` | pubmed_handler.py:18-22 | the loop's result is `Collected(dbs)`: the collected ids, or failure when an access raised |
| `PubmedHandler.GetPubmedIdsFromClinvar` | pubmed_handler.py:11-24 | the function returns `ElinkIds(outcome)`, the ids of the reply walk for the request outcome |
| `PubmedHandler.ElinkIds` | pubmed_handler.py:11-24 | the ids of the first linkset's pubmed linksetdbs, or [] on any failure or when there is no linksetdb list |
| `PubmedHandler.NoLinksetDbs` | pubmed_handler.py:15-17 | a missing or empty `linksets`, or a first linkset without `linksetdbs`, gives [] |
| `PubmedHandler.OnlyFirstLinkset` | pubmed_handler.py:16-19 | two replies with the same first linkset give the same ids, whatever follows |
| `PubmedHandler.CombineAssociative` | pubmed_handler.py:18-22 | combining partial results is associative |
| `PubmedHandler.CollectedSnoc` | pubmed_handler.py:18-22 | one more linksetdb adds its links to what was collected |
| `PubmedHandler.CollectedAppend` | pubmed_handler.py:18-22 | the ids of two runs of linksetdbs are those of the first followed by those of the second |
| `PubmedHandler.CollectedSingle` | pubmed_handler.py:19-21 | a single linksetdb contributes its own links |
| `PubmedHandler.SkipsOtherTargets` | pubmed_handler.py:19-21 | a linksetdb whose `dbto` is not "pubmed" contributes nothing |
| `PubmedHandler.AddsPubmedLinks` | pubmed_handler.py:19-21 | a "pubmed" linksetdb contributes its `links` in place, between the ids before and after it |
| `PubmedHandler.CollectedLength` | pubmed_handler.py:18-22 | the id count is the sum of the `links` lengths of the pubmed linksetdbs (the ids themselves, in order, are stated by `AddsPubmedLinks` and `CollectedAppend`) |
| `PubmedHandler.FailureDiscards` | pubmed_handler.py:19-24 | a linksetdb without `dbto` or (for pubmed) `links` discards everything collected |
| `PubmedHandler.RequestFailureIsEmpty` | pubmed_handler.py:11-24 | a request failure, an error status or an undecodable body gives [] |
| `PubmedHandler.BuildPubmedLinks` | pubmed_handler.py:26-27 | one link per id, in order, each the PubMed URL of that id followed by "/" |
| `PubmedHandler.LinksRoundTrip` | pubmed_handler.py:27 | the id can be read back from its link |
| `PubmedHandler.LinksInjective` | pubmed_handler.py:27 | different text ids give different links |
| `GnomadHandler.VariantId` | gnomad_handler.py:2 | the variant id is chrom, pos, ref and alt joined by "-" |
| `GnomadHandler.VariantIdSplits` | gnomad_handler.py:2 | splitting a variant id of dash-free parts on "-" gives back its four parts |
| `GnomadHandler.RecordBase` | gnomad_handler.py:46-49 | the three-key record holds the variant id and both frequencies and no `error` |
| `GnomadHandler.GnomadRecord` | gnomad_handler.py:35-57 | every returned record holds the variant id and both frequencies, and `error` exactly when one is given |
| `GnomadHandler.GetGnomadFrequencies` | gnomad_handler.py:20-58 | every path returns a record holding the variant id; a raised request, an error status or an undecodable body gives the exception-path record |
| `GnomadHandler.FromReply` | gnomad_handler.py:32-50 | the record of a decoded reply: the error record when it has `errors`, otherwise the genome and exome `af` values, None where absent |
| `GnomadHandler.GnomadAsWritten` | gnomad_handler.py:21 | as written, every call returns the exception-path record with error "name 'requests' is not defined" and no genome frequency |
| `GnomadHandler.SuccessReply` | gnomad_handler.py:42-50 | a reply without `errors` whose `data.variant` is an object gives a record without `error` whose frequencies are `genome.af` and `exome.af`, None where a level is missing or null |
| `GnomadHandler.LevelAfOfReply` | gnomad_handler.py:43-49 | `(variant.get(level) or {}).get("af")` is that level's `af`, or None |
| `GnomadHandler.NoDataReply` | gnomad_handler.py:42-50 | a reply without `errors` or `data` gives the success record with both frequencies None |
| `GnomadHandler.ErrorsReply` | gnomad_handler.py:34-40 | a reply with `errors` gives both frequencies None and `error` set to that value |
| `GnomadHandler.NoneHasNoGet` | gnomad_handler.py:42 | `.get` on None raises "'NoneType' object has no attribute 'get'" |
| `GnomadHandler.NullDataIsFailure` | gnomad_handler.py:42-58 | a null `data` lands on the exception path with the AttributeError text |
| `GnomadHandler.NullVariantIsFailure` | gnomad_handler.py:42-58 | a null `data.variant` lands on the exception path with the AttributeError text |
| `GnomadHandler.AsWrittenLosesFrequencies` | gnomad_handler.py:21-50 | for a reply carrying a genome frequency, the corrected function returns it and the function as written does not |
| `ClinvarApi.ConditionNames` | clinvar_api.py:22 | one name per condition |
| `ClinvarApi.AssertionEntries` | clinvar_api.py:19-23 | one entry per assertion |
| `ClinvarApi.AppendAssertionEntries` | clinvar_api.py:19-23 | the assertion loop appends exactly `AssertionEntries(assertions)` to `results`, or fails with the first failing assertion's error |
| `ClinvarApi.GetClinvarData` | clinvar_api.py:4-27 | the function returns `ClinvarSummary(outcome)`, the summary text for the request outcome |
| `ClinvarApi.ClinvarSummary` | clinvar_api.py:4-27 | the summary line of a refsnp request: the status message, the joined significance entries, the no-significance text or the exception text |
| `ClinvarApi.AssertionEntriesStayFailed` | clinvar_api.py:19-27 | once an assertion raises, later assertions cannot recover the run |
| `ClinvarApi.AssertionEntriesStep` | clinvar_api.py:19-23 | one more assertion appends its entry or fails with its error |
| `ClinvarApi.AnnotationEntriesStayFailed` | clinvar_api.py:15-27 | once an annotation raises, later annotations cannot recover the run |
| `ClinvarApi.StatusError` | clinvar_api.py:8-9 | a non-200 status gives "ClinVar API hatası: " followed by the status code, which can be read back |
| `ClinvarApi.MissingSnapshot` | clinvar_api.py:12-27 | a reply without `primary_snapshot_data` gives the error prefix followed by `'primary_snapshot_data'` |
| `ClinvarApi.MissingKeyText` | clinvar_api.py:27 | `str(KeyError("primary_snapshot_data"))` is the key in single quotes |
| `ClinvarApi.NonClinicalAnnotation` | clinvar_api.py:16-17 | an annotation whose `clinical` is missing or falsy contributes nothing |
| `ClinvarApi.ThenAssociative` | clinvar_api.py:15-23 | sequencing partial entry runs is associative |
| `ClinvarApi.AnnotationEntriesAppend` | clinvar_api.py:15-23 | entries are ordered by annotation, then by assertion, and the first failure wins |
| `ClinvarApi.AssertionEntriesAppend` | clinvar_api.py:19-23 | the entries of two runs of assertions are those of the first followed by those of the second |
| `ClinvarApi.Conditions` | clinvar_api.py:21 | the conditions of a well-formed assertion are well-formed |
| `ClinvarApi.GoodConditionNames` | clinvar_api.py:22 | well-formed conditions give their preferred names, all text |
| `ClinvarApi.GoodAssertionEntry` | clinvar_api.py:20-23 | a well-formed assertion gives exactly "<sig> - <names joined by '; '>", with "" for a missing description |
| `ClinvarApi.GoodSignificance` | clinvar_api.py:20 | the significance is the description, or "" when it is absent |
| `ClinvarApi.GoodDiseases` | clinvar_api.py:21-22 | the disease part is the preferred names joined by "; " |
| `ClinvarApi.NoConditions` | clinvar_api.py:21-23 | an assertion with no conditions gives "<sig> - " |
| `ClinvarApi.SummaryOfEntries` | clinvar_api.py:25 | a readable reply gives its entries joined by the entry separator (space, bar, space), or "No clinical significance found." when there are none |
| `ClinvarApi.FailureText` | clinvar_api.py:12-27 | a reply whose annotations cannot be reached gives the error prefix followed by `str(e)` |
| `App.Fields` | app.py:84 | a stripped line splits into at least one field |
| `App.LineRow` | app.py:84-90 | a data line gives a row iff it has at least five tab fields and field 1 is an integer, and that row is field 0, int(field 1), field 3, field 4; a line with fewer than two fields, or a valid POS but fewer than five fields, raises `IndexError`; a line with a non-integer POS raises the `ValueError` of `int()` |
| `App.VcfRows` | app.py:81-90 | every parsed row has the four columns |
| `App.VcfFrame` | app.py:91 | `pd.DataFrame(rows)` is a well-formed frame holding the rows |
| `App.ParseVcf` | app.py:77-91 | the line loop gives `VcfFrame(VcfRows(lines).value)`, or fails with the error of `VcfRows(lines)` |
| `App.VcfRowsStep` | app.py:81-90 | one more line is skipped when it is a comment, and otherwise appends its row or fails |
| `App.VcfRowsStayFailed` | app.py:81-90 | once a line raises, later lines cannot recover the parse |
| `App.DataLines` | app.py:81-83 | the lines kept are exactly the lines that are not comments: every kept line is a non-comment input line, and every non-comment input line is kept |
| `App.DataLinesSingle` | app.py:81-83 | a single line is kept iff it does not start with `#` |
| `App.DataLinesAppend` | app.py:81-83 | the data lines of two blocks are the first block's followed by the second's, so the kept lines keep their order |
| `App.VcfRowsSkipComments` | app.py:81-90 | the parse is the collected line parses of the non-comment lines |
| `App.VcfRowsOfDataLines` | app.py:81-90 | the parse succeeds iff every non-comment line parses, then gives exactly one row per such line in input order, and otherwise fails with the first failing line's error |
| `App.BlankLineFails` | app.py:84-86 | a blank line is not skipped and raises `IndexError` |
| `App.VcfLineRoundTrip` | app.py:84-90 | a tab-joined VCF record line yields CHROM, POS, REF and ALT of that record; the ID field is ignored |
| `App.LineRowOfFields` | app.py:84-90 | a line with at least five fields and an integer POS gives its four key cells |
| `App.FieldsOfJoin` | app.py:84 | stripping and splitting a tab-join of tab-free fields gives the fields back, and it is not a comment |
| `App.VcfFrameColumns` | app.py:118-119 | a VCF upload has the required columns iff it has at least one data row |
| `App.NormalizeAll` | app.py:136-137 | converting the key columns to text changes exactly those columns' cells |
| `App.NormalizedKeyCells` | app.py:136-138 | after normalisation the key cells compare by their text |
| `App.IntegerPositionMatchesText` | app.py:137-138 | an integer POS and its decimal text normalise to the same key |
| `App.FirstMissing` | app.py:136-137 | the first key column missing from either frame |
| `App.HasRequiredColumns` | app.py:118-119 | the upload has all of CHROM, POS, REF, ALT |
| `App.NormalizeKeys` | app.py:136-137 | both frames have their key columns converted in place; a key column missing from either frame raises `KeyError` there, after exactly the conversions the loop made before it |
| `App.NormalizeStep` | app.py:136-137 | one more key column is one more in-place conversion |
| `App.FirstMissingAt` | app.py:136-137 | the first missing key column is the one the loop stops at |
| `App.ClassifyAll` | app.py:139 | the ClinGen column is each row's lookup result, and, for scalar gene cells, the lookup raises `KeyError('GENE SYMBOL')` iff there is a row and the ClinGen table is the empty frame |
| `App.Classified` | app.py:139 | adding the ClinGen column keeps the row count |
| `App.Matched` | app.py:138-140 | the matched frame is well-formed |
| `App.MatchedRows` | app.py:138-140 | every merged row's ClinGen_Validity is its gene's lookup, and `matched` is exactly the merged rows with a non-null ID, in order |
| `App.EmptyClingenFails` | app.py:139 | with an empty ClinGen fallback table, any upload row makes the matcher raise `KeyError('GENE SYMBOL')` |
| `App.NoRowsNoLookup` | app.py:139 | with no rows, no lookup is made and the column is added |
| `App.RowItem` | app.py:147-158 | `row[name]` succeeds iff the column exists and then is the cell under that column, else raises `KeyError(name)` |
| `App.ErrorDictOr` | app.py:152-163 | a fetch result that is a dict with "error" is replaced by the default, and any other result is kept |
| `App.Commentary` | app.py:189-192 | the generated text, or `❌ ` followed by the message of the exception it raised |
| `App.ResultEntries` | app.py:194-199 | the result dict: the row's entries, then `PubMed_Links`, then the statistics' entries, then `Gemini_Yorum`, where a repeated key replaces the earlier value in place |
| `App.RowResult` | app.py:145-199 | one row's result dict, or the exception raised on the way: a missing key or `ID` cell, `int(row['ID'])`, or the prompt build |
| `App.PromptFailure` | app.py:166-188 | building the prompt succeeds iff `', '.join(pmids)` succeeds (or the ids are empty) and the gnomAD stats are a dict; a non-text id raises the join's `TypeError`, a non-iterable id value its iteration error, and otherwise non-dict stats raise the `AttributeError` of `.get` |
| `App.VariantCells` | app.py:147 | the four key cells can be read iff the row has all four key columns, and then are the cells under CHROM, POS, REF, ALT; otherwise `KeyError` of the first one missing |
| `App.InterpretRows` | app.py:145-199 | the result loop gives the collected per-row results |
| `App.OneResultPerRow` | app.py:145-199 | the loop succeeds iff every row does, and then gives exactly one result per matched row in iteration order; otherwise it fails with one row's error |
| `App.PubmedIdsKept` | app.py:150-156 | the PubMed fetch never returns an error dict, so its ids are always kept |
| `App.GnomadFailureDropped` | app.py:158-163 | a gnomAD exception-path record is replaced by {} |
| `App.RowDictLookup` | app.py:195 | the spread row dict maps each column to its cell |
| `App.ResultCommentary` | app.py:194-199 | a result holds the commentary under "Gemini_Yorum" |
| `App.ResultStats` | app.py:194-199 | a gnomAD statistic overrides row cells and the PubMed links of the same name |
| `App.ResultPubmedLinks` | app.py:194-199 | the result holds the ids under "PubMed_Links" unless a statistic has that name |
| `App.ResultRowCells` | app.py:194-199 | a row cell not shadowed by a later key keeps its value |
| `App.ResultKeys` | app.py:194-199 | the result's keys are the row's columns, "PubMed_Links", the statistics and "Gemini_Yorum" |
| `App.GenerationFailureIsolated` | app.py:189-199 | a succeeding row's result is built from its cells, ids, stats and commentary, and an LLM exception becomes "❌ " followed by `str(e)` instead of failing the row |
| `App.Interpretation` | app.py:118-140 | the run stops with the missing-columns message iff the upload lacks one of CHROM, POS, REF, ALT; a merge accepted with a repeated label ends the modelled run with that header |
| `App.Interpret` | app.py:118-199 | the run gives `Interpretation(..)` of the frames as they were; an upload missing a required column stops before any frame is changed; otherwise both frames end with the key columns converted up to the first key missing from either frame (all four when none is missing) |
| `App.HeaderOnlyUploadStops` | app.py:77-128 | a VCF upload with only comment lines stops at the required-column check |

## Left out

- The Streamlit UI (page setup, widgets, `st.write`/`st.dataframe`/`st.warning` output, the second API-key check) and the documentation page are presentation only.
- The LLM: `generate_with_gemini` and the other model wrappers are foreign libraries. The generator is the opaque `Services.llm`, which may raise. The prompt template text is not modelled. Only its parts that can raise are kept: `', '.join(pmids)` and `stats.get`.
- File reading and decoding are I/O: `uploaded_file.getvalue().decode().splitlines()`, gzip, `pd.read_csv`, `pd.read_parquet` and the ClinGen CSV read. The VCF input is a sequence of lines. The ClinGen input is the raw cell grid, or None when the read failed.
- `parse_vcf_gz`: its per-line handling is the same as `parse_vcf`'s. It differs in the gzip decoding and in the line splitting: iterating the text file splits only at `\n`, `\r` and `\r\n`, while `splitlines()` also splits at `\v`, `\f`, `\x1c`-`\x1e`, `\x85`, `\u2028` and `\u2029`. The model takes the upload as an already split sequence of lines, so neither splitting is modelled.
- Network calls are inputs (`Http.HttpOutcome`). The request URL, parameters, timeout, GraphQL query text and debug prints do not influence the modelled results.
- `add_gnomad_links` and `fetch_gnomad_simple` are imported by the app but defined in no source file, so there is no code to model. The ClinVar reference frame is a parameter of `App.Interpret` (the enriched parquet table as the app holds it). The gnomAD fetcher of the result loop is the opaque `Services.gnomad`. It is a total function, so the model assumes the fetcher returns a value and never raises.
- Caching (`st.cache_data`) and the `time.sleep(0.3)` pacing are runtime concerns.
- Frequencies and other floats are opaque values. No arithmetic is done on them.
- pandas dtype coercion is not modelled: integer columns upcast to float when a merge leaves NaN, and `iterrows` yields upcast Series. Cells keep the Python value they were built from.
- ClinvarParser.InfoText: list-valued INFO cells are outside the model. For a list, `pd.isna` gives an array, so the source returns None for a one-item list of NA and raises numpy's ambiguous-truth `ValueError` for a longer list, while the model raises the `TypeError` of `re.search`. The app's INFO column comes from the parquet file as text or NA, so no list reaches it there.
- ClinvarParser.ApplyExtractor: inherits the `InfoText` restriction; its readable-iff holds for scalar INFO cells only.
- ClinvarParser.EnrichClinvarDf: inherits the `InfoText` restriction; a list-valued INFO cell that pandas would turn into None is modelled as raising.
- ClingenHandler.Classification: a list-valued gene is outside the model. pandas compares `df_clingen["GENE SYMBOL"] == gene_symbol` item by item and raises `ValueError` when the lengths differ, while the model gives "Yok". The app's genes are text, None or NaN from `extract_gene` and the merge.
- ClingenHandler.NonTextGeneIsYok: holds for scalar non-text genes only, for the reason given for `Classification`.
- App.ClassifyAll: its raises-iff-empty-frame statement holds for scalar gene cells only, for the reason given for `ClingenHandler.Classification`.
- The `MergeError` message text of a merge with clashing suffixed labels is opaque.
- App.Interpretation: a merge that pandas accepts although the merged header repeats a label (an upload column `c_y` beside a ClinVar column `c` that the upload also has) ends the modelled run as `RepeatedLabels` with that header. pandas would go on with a duplicate-label frame, where `row[...]` can return a Series; the model does not follow it.
- An empty upload is merged with pandas dropping the left key columns instead of the right ones. This changes only the column order of a merged frame without rows, and the model uses the non-empty order for it.
- `repr` escaping covers quotes, backslash, newline, carriage return and tab. Other control and non-printable characters are not escaped by `PyValues.Repr`.
- `int()` on text accepts ASCII digits, sign, surrounding whitespace and `_` separators. Non-ASCII Unicode digits are treated as invalid.
- PyValues.ToInt: `int(x)` of a float written with an exponent (`1e+20`) is modelled as a `ValueError` rather than the truncated integer, because floats are carried as their repr text.
- A ClinGen header row that repeats one of the three labels is read at its first occurrence; pandas would select every duplicate column.
- The ClinGen lookup is a pure function of the table, so "the lookup does not modify the table" holds by construction and has no separate statement.
- The row index shown in the progress message (`i+1`) is UI output.

## Findings

| source | as written | input that shows it | evidently intended | confidence | as-written member | corrected member |
|---|---|---|---|---|---|---|
| gnomad_handler.py:21 | `requests.post` is called but `requests` is never imported, so the call raises `NameError` inside the `try` and every call returns the exception-path record | any call, e.g. `get_gnomad_frequencies("1", 12345, "A", "G")` when the service would reply with a genome `af` of 0.01 | `import requests`, so a successful reply's frequencies reach the caller | not executed | `GnomadHandler.AsWrittenLosesFrequencies` | `GnomadHandler.GetGnomadFrequencies` |

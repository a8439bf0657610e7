# Security scanner core, modelled in Dafny

This project models the core of a repository security scanner built around a
local language model, and proves properties of that model. The scanner walks a
directory and keeps the source files with a supported extension outside
excluded directories. It runs a fixed table of regular-expression rules over
every line. It asks the model about a truncated copy of each file and parses
its free-text reply into findings. It attaches a few lines of code context to
every finding with a line number, and audits the pinned Python requirements
against a list of packages with known vulnerabilities. Finally it builds a
report with a per-severity breakdown, a 0–100 security score, cleaned findings
and advice. The model also covers the text of the PDF report made from that
report, the brace-matching extractor that pulls a JSON object out of a model
reply, and the launcher's check that the required models are installed.

Modules, one file each:

- `Wrappers`: `Option` and `Result`.
- `Text`: Python's `strip`, `split`, `join`, `startswith`, `in`, `replace(x, '')`, slicing, ASCII case mapping, `str(int)` and `int(str)`, all on `seq<char>`.
- `ScanModel`: a finding as a record of optional keys, a directory entry, and the scanner's configuration.
- `PathFilter`: file collection and exclusion.
- `RuleEngine`: the rule table and the static analysis.
- `CodeContext`: the code window around a line.
- `AiAnalysis`: the payload sent to the model and the reply parser.
- `DependencyAudit`: the manifests and the requirements audit.
- `ReportBuilder`: counting, score, cleaning and recommendations.
- `ScanPipeline`: the per-file analysis and `scan_local_directory` with its progress reports.
- `PdfReport`: the report text.
- `JsonExtract`: the JSON extractor.
- `ModelCheck`: the required-model check.

Every state-changing loop of the source is a Dafny `method` with its loop. Each
method is proved equal to a specification function, and the properties are
proved about those functions as lemmas. The regular expressions, the language
model and the file system are parameters or inputs:

- `search(pattern, line)` decides whether a pattern matches a line.
- `llm(payload, name)` gives the model's reply, or `None` when the call raises.
- A directory is the sequence of entries `rglob('*')` yields, each with its path parts, its size and what reading it gives.
- The manifests are a map from file name to what reading the file gives.

## Model

| member | source | states |
|---|---|---|
| PathFilter.IsExcludedPath | langchain-repo-scanner/security_scanner.py:196-204 | a path is excluded exactly when one of its parts is one of the seven excluded directory names |
| PathFilter.SuffixIsExtension | langchain-repo-scanner/security_scanner.py:190 | a name has a given extension as its suffix exactly when it ends with it and has something before it |
| PathFilter.SupportedAreExtensions | langchain-repo-scanner/security_scanner.py:48 | each of the nine supported extensions is a dot followed by a dot-free name |
| PathFilter.LastDot | langchain-repo-scanner/security_scanner.py:190 | the index found is a dot with no dot after it, or -1 when there is none |
| PathFilter.CollectedMembers | langchain-repo-scanner/security_scanner.py:184-194 | the collected files are exactly the entries that are regular files with a supported suffix and no excluded part |
| PathFilter.CollectedAppend | langchain-repo-scanner/security_scanner.py:188-192 | collection distributes over concatenation of the traversal, so traversal order is kept |
| PathFilter.CollectCodeFiles | langchain-repo-scanner/security_scanner.py:184-194 | the loop returns the collected files in traversal order, and a file is in the result iff it is a code file of the traversal |
| RuleEngine.KindTables | langchain-repo-scanner/security_scanner.py:604-626 | every kind gets one of the four severities and a non-empty description; an unknown kind gets 'low' and 'Vulnérabilité détectée' |
| RuleEngine.StaticFindingsSound | langchain-repo-scanner/security_scanner.py:308-350 | every static finding is the hit of a (kind, pattern, line) match on a line within `content.split('\n')`; its kind is one of the four rule kinds, and its severity and description are its kind's |
| RuleEngine.StaticFindingsComplete | langchain-repo-scanner/security_scanner.py:308-350 | every (kind, pattern, line) match is reported with its kind and 1-based line number |
| RuleEngine.RuleHitsOrder | langchain-repo-scanner/security_scanner.py:337-348 | for any rule table, the findings are exactly one hit per matching (kind, pattern, line) triple: positions that all match, strictly increase in kind, pattern, line order, and include every match |
| RuleEngine.RuleHitsAt | langchain-repo-scanner/security_scanner.py:337-348 | each finding of a rule table, by index, is the hit of a triple whose pattern matches that line |
| RuleEngine.StaticFindingsOrder | langchain-repo-scanner/security_scanner.py:308-350 | multiplicity and order: the static findings are one hit per matching triple of the pattern table over `content.split('\n')`, listed kind by kind, pattern by pattern, line by line, every match included |
| RuleEngine.RuleKindsListed | langchain-repo-scanner/security_scanner.py:314-335 | the kinds of the pattern table are the four rule kinds |
| RuleEngine.StaticAnalysis | langchain-repo-scanner/security_scanner.py:308-350 | the three nested loops produce the findings kind by kind, pattern by pattern, line by line |
| RuleEngine.ApplyRules | langchain-repo-scanner/security_scanner.py:337 | the outer loop appends each kind's findings in table order |
| RuleEngine.ApplyPatterns | langchain-repo-scanner/security_scanner.py:338 | the middle loop appends each pattern's findings in order |
| RuleEngine.ApplyPattern | langchain-repo-scanner/security_scanner.py:339-348 | the inner loop appends one finding per matching line, in line order |
| CodeContext.WindowShape | langchain-repo-scanner/security_scanner.py:291-306 | the window covers the file lines from `max(0, n - 3)` up to `min(len(lines), n + 2)`, at most five; each shown line is its file line after ">>> " when it is line `n` and after four spaces otherwise; a line is marked when the line number is within the file, and none otherwise |
| CodeContext.WindowLine | langchain-repo-scanner/security_scanner.py:296-304 | shown line `k` is file line `start + k`, prefixed by ">>> " exactly when it is the finding's line, by four spaces otherwise |
| CodeContext.GetCodeContext | langchain-repo-scanner/security_scanner.py:291-306 | the loop over `range(start_line, end_line)` followed by the join gives the window joined with newlines |
| AiAnalysis.AnalysisPayload | langchain-repo-scanner/security_scanner.py:356-358 | content within the limit is sent unchanged; longer content is cut to the limit and marked; the payload never exceeds 1000 characters plus the marker |
| AiAnalysis.FieldValueAfterLabel | langchain-repo-scanner/security_scanner.py:404-411 | when the label does not recur in the line, the field value is the stripped rest of the line |
| AiAnalysis.RunConsistent | langchain-repo-scanner/security_scanner.py:401-417 | parsing any lines keeps every emitted record well-formed: the reply's fields only, lower-case severity, the file set |
| AiAnalysis.ReplyFindingsEmitted | langchain-repo-scanner/security_scanner.py:388-427 | every parsed finding names the analysed file, has at least one of type, severity, description and line, and has a lower-case severity |
| AiAnalysis.StepEmits | langchain-repo-scanner/security_scanner.py:414-417 | only a separator line emits a record, and at most one |
| AiAnalysis.RunEmitsAtSeparators | langchain-repo-scanner/security_scanner.py:401-417 | the records emitted while reading the lines are at most the separator lines, and none without a separator |
| AiAnalysis.ReplyFindingsCount | langchain-repo-scanner/security_scanner.py:414-422 | a reply yields at most one finding more than its separator lines; one without separators yields at most one finding, and that one has a type |
| AiAnalysis.ParseAiResponse | langchain-repo-scanner/security_scanner.py:388-427 | the loop builds the reply's findings; the sentinel in any case gives none; every finding is well-formed and names the file |
| AiAnalysis.AiFindings | langchain-repo-scanner/security_scanner.py:352-386 | a failing model call yields no findings; otherwise the findings are those parsed from the reply, each naming the file and holding only the reply's fields |
| AiAnalysis.StepSeparator | langchain-repo-scanner/security_scanner.py:414-417 | a `---` line after a non-empty record emits exactly that record with the file added, with or without a type, and starts a new one; after an empty record it changes nothing |
| AiAnalysis.StepBadLine | langchain-repo-scanner/security_scanner.py:409-413 | a `LINE:` line whose value `int()` rejects leaves the parser's state unchanged |
| AiAnalysis.StepLabelled | langchain-repo-scanner/security_scanner.py:401-413 | a stripped `TYPE:`, `SEVERITY:`, `DESCRIPTION:` or `LINE:` line sets only that field of the record being assembled, to the value after the label (severity lower-cased, line read by `int()`) |
| AiAnalysis.RunRecords | langchain-repo-scanner/security_scanner.py:401-417 | reading records written one field per line, each closed by `---`, emits each of them in order, with the file and lower-case severity |
| AiAnalysis.ReplyRoundTrip | langchain-repo-scanner/security_scanner.py:388-427 | a reply that lists well-formed records, each field on its own line and each record closed by `---`, and does not mention the sentinel, parses back to exactly those records, in order, each with the file added and its severity lower-cased |
| AiAnalysis.ReplyRoundTripOpen | langchain-repo-scanner/security_scanner.py:419-422 | when the last record is not closed by `---`, it is kept, after all the closed ones, exactly when it has a type |
| DependencyAudit.ClassifyPins | langchain-repo-scanner/security_scanner.py:477-479 | a line is no pin exactly when its stripped text has no `==`, and a bad pin exactly when it splits into more than two parts |
| DependencyAudit.AuditFails | langchain-repo-scanner/security_scanner.py:476-479 | the audit fails exactly when some line has more than one `==`, and then with the unpacking error |
| DependencyAudit.AuditFlags | langchain-repo-scanner/security_scanner.py:483-490 | a successful audit reports a finding for a pin exactly when its package is flagged, whatever its version |
| DependencyAudit.AuditOrder | langchain-repo-scanner/security_scanner.py:476-490 | multiplicity and order: a successful audit gives one finding per pin of a flagged package, in the order of the lines, every flagged pin included |
| DependencyAudit.PythonDepsOrder | langchain-repo-scanner/security_scanner.py:463-492 | finding `t` of a requirements file is that of line `idx[t]`, the lines strictly increase, and every line pinning a flagged package is among them |
| DependencyAudit.PythonDepsMeaning | langchain-repo-scanner/security_scanner.py:463-492 | over the lines of a requirements file: the audit raises exactly when some line has more than one `==`, with the unpacking error, and otherwise reports a finding exactly for a line pinning a flagged package |
| DependencyAudit.AuditFrom | langchain-repo-scanner/security_scanner.py:476-490 | auditing from a line that is not a bad pin gives that line's findings followed by the rest's |
| DependencyAudit.ClassifyLine | langchain-repo-scanner/security_scanner.py:477-481 | the loop body strips, looks for `==`, splits and unpacks exactly as `Classify` says: no pin, bad pin, or package and version |
| DependencyAudit.AnalyzePythonDeps | langchain-repo-scanner/security_scanner.py:463-492 | the loop over the lines gives the audit's result, stopping at the first bad pin |
| DependencyAudit.DependencyFindingsShape | langchain-repo-scanner/security_scanner.py:429-461 | every dependency finding is a low `dependency_error` naming a manifest that is present, or a medium `vulnerable_dependency` of a flagged package with no file |
| DependencyAudit.OnlyRequirementsAudited | langchain-repo-scanner/security_scanner.py:441-451 | when the other manifests read, only `requirements.txt` contributes findings |
| DependencyAudit.AnalyzeDependencies | langchain-repo-scanner/security_scanner.py:429-461 | the loop over the four manifests gives their findings in order |
| ReportBuilder.TallyTotal | langchain-repo-scanner/security_scanner.py:498-506 | each finding is counted in exactly one bucket, so the buckets add up to the number of findings |
| ReportBuilder.ScoreBounds | langchain-repo-scanner/security_scanner.py:509-516 | the score is within 0..100, is 100 exactly when nothing was found, and each finding costs between one and ten points until it reaches 0 |
| ReportBuilder.ScoreMonotone | langchain-repo-scanner/security_scanner.py:509-516 | one more finding never raises the score, and lowers it while it is positive |
| ReportBuilder.Capped | langchain-repo-scanner/security_scanner.py:542-546 | a capped text is the original when it fits, and exactly its first `k` characters when it does not |
| ReportBuilder.Clean | langchain-repo-scanner/security_scanner.py:528-546 | a cleaned finding takes each key's value or its default ('unknown' type, 'low' severity, the message then 'No description', 'unknown' file), keeps the line, and cuts the code to 500 and the context to 1000 characters |
| ReportBuilder.Cleaned | langchain-repo-scanner/security_scanner.py:526-548 | cleaning keeps the number and order of findings, each cleaned on its own |
| ReportBuilder.AdviceMeaning | langchain-repo-scanner/security_scanner.py:590-600 | advice is given exactly for the kinds found, each piece at most once, piece `t` being table entry `idx[t]` with the entries increasing |
| ReportBuilder.RecommendationsMeaning | langchain-repo-scanner/security_scanner.py:584-602 | a piece of advice appears exactly when a finding of its kind was reported, in the order of the advice table; there are at most four and none is repeated |
| ReportBuilder.GenerateRecommendations | langchain-repo-scanner/security_scanner.py:584-602 | the set of kinds and the four tests give the recommendations |
| ReportBuilder.ReportConsistent | langchain-repo-scanner/security_scanner.py:550-561 | the breakdown adds up to the total, which is the number of listed findings; the score is within 0..100 and is 100 exactly when none is listed; there are at most four recommendations |
| ReportBuilder.CountSeverities | langchain-repo-scanner/security_scanner.py:498-506 | the counting loop gives the breakdown, an unknown severity counted as low |
| ReportBuilder.CleanFindings | langchain-repo-scanner/security_scanner.py:526-548 | the cleaning loop gives the cleaned findings |
| ReportBuilder.GenerateReport | langchain-repo-scanner/security_scanner.py:494-564 | the counting loop, the clamped score, the cleaning loop and the recommendations give the report |
| ScanPipeline.WithContext | langchain-repo-scanner/security_scanner.py:273-275 | attaching contexts keeps the number and order of findings, each finding handled on its own |
| ScanPipeline.AttachedMeaning | langchain-repo-scanner/security_scanner.py:273-275 | a finding gets a context exactly when its line is present and non-zero, and that context is the window of its line |
| ScanPipeline.FileFindingsMeaning | langchain-repo-scanner/security_scanner.py:243-289 | every finding of a file names that file; an oversize file gives only the `file_too_large` finding; a file that cannot be statted, or one within the limit that cannot be read, gives only its `file_error` finding; a file that is read has the context of every finding with a non-zero line attached |
| ScanPipeline.AttachContexts | langchain-repo-scanner/security_scanner.py:273-275 | the loop attaches the contexts |
| ScanPipeline.AnalyzeFileWithProgress | langchain-repo-scanner/security_scanner.py:243-289 | size check, read, static and model analysis, then contexts: the result is `FileFindings`, whose meaning `FileFindingsMeaning` states |
| ScanPipeline.FilePercentBounds | langchain-repo-scanner/security_scanner.py:129-130 | the per-file percentages lie within 35..65, never fall, and the last one is 65 |
| ScanPipeline.FileSteps | langchain-repo-scanner/security_scanner.py:124-137 | one `ai_analysis` report per file, in file order, with that file's percentage |
| ScanPipeline.FullRunMeaning | langchain-repo-scanner/security_scanner.py:96-174 | a full run reports one step per file between 35 and 75, the percentages never fall, stay within 0..100 and end with 100 |
| ScanPipeline.ProgressMeaning | langchain-repo-scanner/security_scanner.py:92-176 | for every input, progress never falls and stays in 0..100; a report comes after one step per file and ends at 100; an early error reports at most two steps |
| ScanPipeline.AnalyzeNextFile | langchain-repo-scanner/security_scanner.py:140-141 | one turn of the file loop appends that file's findings |
| ScanPipeline.AnalyzeCodeFiles | langchain-repo-scanner/security_scanner.py:124-152 | the file loop gives all the files' findings in order and one progress report per file |
| ScanPipeline.ScanLocalDirectory | langchain-repo-scanner/security_scanner.py:92-176 | collection, the file loop, the dependency audit and the report give the scan's outcome and progress reports |
| PdfReport.TruncateText | langchain-repo-scanner/pdf_generator.py:352-356 | a text within the limit is unchanged; a longer one keeps `max_length - 3` characters plus "...", exactly `max_length` long |
| PdfReport.TruncatePath | langchain-repo-scanner/pdf_generator.py:358-362 | the result is at most 30 characters; a longer path becomes "..." and its last 27 characters |
| PdfReport.ScoreBand | langchain-repo-scanner/pdf_generator.py:309-329 | the four bands split the scores at 80, 60 and 40: best exactly at 80 or more, the first two exactly at 60 or more, the first three exactly at 40 or more |
| PdfReport.BandMonotone | langchain-repo-scanner/pdf_generator.py:309-329 | a higher score never falls in a worse band |
| PdfReport.SecurityStatus | langchain-repo-scanner/pdf_generator.py:320-329 | the status text is the one of the score's band |
| PdfReport.ScoreColor | langchain-repo-scanner/pdf_generator.py:309-318 | the score colour is the one of the score's band |
| PdfReport.ClosingSentence | langchain-repo-scanner/pdf_generator.py:386-393 | the closing sentence is the one of the score's band |
| PdfReport.SeverityColor | langchain-repo-scanner/pdf_generator.py:299-307 | a severity other than the four gets grey |
| PdfReport.CalculatePercentage | langchain-repo-scanner/pdf_generator.py:346-350 | 0 for an empty total; otherwise within half a point of the exact percentage, and at most 100 for a count within the total |
| PdfReport.RoundingNearest | langchain-repo-scanner/pdf_generator.py:350 | rounding moves the quotient by at most a half, and keeps it within 100 when the count is within the total |
| PdfReport.PercentagesNearlySum | langchain-repo-scanner/pdf_generator.py:145-155 | the four percentages of the summary table add up to 100 give or take 2 |
| PdfReport.SeverityRows | langchain-repo-scanner/pdf_generator.py:144-153 | the table has the header and one three-cell row per severity, labelled Critical, High, Medium, Low in that order |
| PdfReport.SeverityRowRead | langchain-repo-scanner/pdf_generator.py:146-153 | a severity's row reads back as its count and, before the percent sign, its rounded percentage of the total |
| PdfReport.SlicesCoverBreakdown | langchain-repo-scanner/pdf_generator.py:281-288 | every slice is positive, the slices add up to the total, there are at most four, and none exactly when nothing was found |
| PdfReport.PieSlices | langchain-repo-scanner/pdf_generator.py:277-289 | the loop's data and labels are the two columns of the slices: one per severity with a positive count, in the fixed order, labelled "Title: count" |
| PdfReport.GroupsMatchBreakdown | langchain-repo-scanner/pdf_generator.py:207-219 | the critical, high and medium tables hold as many findings as the breakdown counts; the low table lacks exactly the findings of unknown severity |
| PdfReport.Row | langchain-repo-scanner/pdf_generator.py:229-233 | a row has three cells, the file cell at most 30 characters and the description at most 60 |
| PdfReport.Rows | langchain-repo-scanner/pdf_generator.py:228-233 | one row per finding, in group order |
| PdfReport.Spaced | langchain-repo-scanner/pdf_generator.py:230 | each underscore becomes a space and every other character is kept in place, so no underscore is left |
| PdfReport.GroupRows | langchain-repo-scanner/pdf_generator.py:226-233 | the loop gives the header and one row per finding |
| PdfReport.GroupBySeverity | langchain-repo-scanner/pdf_generator.py:207-212 | the dict has a key exactly for each severity some finding has, holding those findings in order |
| PdfReport.SeverityPart | langchain-repo-scanner/pdf_generator.py:217-248 | the loop body gives nothing for a severity without findings, otherwise its heading, table and spacer |
| PdfReport.CreateVulnerabilitiesSection | langchain-repo-scanner/pdf_generator.py:194-250 | the section is the heading then the "No vulnerabilities" paragraph, or the groups in the order critical, high, medium, low |
| PdfReport.CriticalSentence | langchain-repo-scanner/pdf_generator.py:380-381 | the critical sentence names the count with a verb and noun that agree: "is … vulnerability" for one, "are … vulnerabilities" for more |
| PdfReport.AnalysisText | langchain-repo-scanner/pdf_generator.py:364-395 | with the critical sentence spelt as intended: the fixed text exactly when the total is 0; otherwise it opens with the total and ends with the closing sentence of the score's band |
| PdfReport.AnalysisMentions | langchain-repo-scanner/pdf_generator.py:377-384 | a text with findings states the score, and holds the critical sentence when there are critical findings and the high sentence when there are high ones |
| PdfReport.AnalysisTextAsWritten | langchain-repo-scanner/pdf_generator.py:364-395 | the paragraph as the code writes it is the fixed text exactly when the total is 0 |
| PdfReport.AnalysisAsWrittenAgrees | langchain-repo-scanner/pdf_generator.py:377-381 | without critical findings the paragraph as written and the corrected one are the same text |
| PdfReport.AnalysisAsWrittenMisspelt | langchain-repo-scanner/pdf_generator.py:380-381 | with critical findings the paragraph as written holds the misspelt critical sentence |
| JsonExtract.Find | generate_data.py:30 | the index of the first occurrence, or none exactly when the character does not occur |
| JsonExtract.Next | generate_data.py:37-50 | an unescaped quote toggles string mode; braces move the depth only outside strings; a backslash escapes the next character unless itself escaped |
| JsonExtract.BackslashPairs | generate_data.py:47-50 | a doubled backslash escapes nothing, so the quote after it toggles string mode |
| JsonExtract.NoBraceMeaning | generate_data.py:30-32 | the no-brace error is raised exactly when the text holds no '{' |
| JsonExtract.SuccessMeaning | generate_data.py:36-46 | a returned object is the slice from the first '{'; it starts with '{', ends with '}', the depth is at least one on every proper prefix and zero at its end |
| JsonExtract.ScanFromMeaning | generate_data.py:36-51 | the scan from any point returns the shortest balanced slice, or fails when no later prefix balances |
| JsonExtract.IncompleteMeaning | generate_data.py:51 | the incomplete error is raised exactly when the depth never returns to zero |
| JsonExtract.ExtractJsonString | generate_data.py:28-51 | the scanning loop with its early return gives the specified object or error |
| JsonExtract.ExtractJson | generate_data.py:53-61 | a fenced block wins, stripped; only without one is the brace scan used |
| ModelCheck.MissingMeaning | langchain-repo-scanner/run.py:27-30 | the missing list holds exactly the required models no installed name starts with, in the required order, each once |
| ModelCheck.CheckMeaning | langchain-repo-scanner/run.py:19-32 | no reply or no models gives (False, []); otherwise ok exactly when nothing is missing, and the missing models are exactly those not provided |
| ModelCheck.PrefixProvides | langchain-repo-scanner/run.py:29 | matching is by prefix: any longer installed name provides the model |
| ModelCheck.CheckRequiredModels | langchain-repo-scanner/run.py:19-32 | the nested loops give the check's result |
| Text.JoinSplit | langchain-repo-scanner/security_scanner.py:293 | splitting on a separator and joining with it gives back the text |
| Text.SplitCountsSeparators | langchain-repo-scanner/security_scanner.py:478-479 | a text splits into more than one part exactly when it contains the separator |
| Text.IntRoundTrip | langchain-repo-scanner/security_scanner.py:411 | reading back the decimal form of an integer gives the integer |
| Text.StripMeaning | langchain-repo-scanner/security_scanner.py:345 | a stripped text is the slice `s[a..b]` with only white space outside it, and it neither starts nor ends with white space |
| Text.StripLeftMeaning | langchain-repo-scanner/security_scanner.py:401 | `lstrip` keeps a suffix and drops only white space before it; what it keeps does not start with white space |
| Text.StripRightMeaning | langchain-repo-scanner/security_scanner.py:401 | `rstrip` keeps a prefix and drops only white space after it; what it keeps does not end with white space |
| Text.SplitJoin | langchain-repo-scanner/security_scanner.py:398 | joining parts that hold no newline and splitting on newlines gives the parts back |
| Text.TitleMeaning | langchain-repo-scanner/pdf_generator.py:230 | title case keeps the length, upper-cases a letter at the start of a word and lower-cases one inside a word |
| Text.PyTake | langchain-repo-scanner/security_scanner.py:358 | Python's `s[:k]`: a prefix of the length Python gives for a positive or negative bound |
| Text.PyLast | langchain-repo-scanner/pdf_generator.py:362 | Python's `s[-k:]`: the last `k` characters, or all of them |
| PdfReport.CriticalSentenceMisspelt | langchain-repo-scanner/pdf_generator.py:381 | the sentence as written spells the noun "vulnerabilityy" for one and "vulnerabilityies" for more |

## Left out

- Cloning a remote repository and cleaning up its temporary copy (`scan_github_repo`) are git and file-system operations.
- The file system is an input: the entries `rglob` yields, their sizes and contents, and the manifests present. `exists`, `stat` and `open` are not modelled. Neither are `str(Path)` normalisation or Windows paths. `ChildPath` assumes a root without a trailing separator.
- The language model is a parameter. `PromptTemplate`, `LLMChain` and the prompt text are not part of this model. Any exception the chain raises is a `None` reply, which yields no findings.
- Regular-expression semantics are not modelled, neither for the rule patterns nor for the fenced ```json block of `extract_json_codeblock`. The pattern texts are kept, matching is the parameter `search`, and the fenced block's capture is the parameter `fenced`.
- `datetime.now()` is the `scanDate` input. `_format_date`, `print` logging, environment variables and the unused thread pool are not modelled.
- Page layout, fonts, colours of table styles and chart geometry in the PDF generator are not modelled. A table is its rows of cell texts and the pie is its data and labels. The pie's slice colours are left out.
- The `error` step with percentage 0, and the 'Erreur scan local' result of `scan_local_directory`'s outer handler, are not modelled. No modelled operation raises on a typed input.
- The `analysis_error` finding of the file loop is not modelled. `_analyze_file_with_progress` turns every exception it can meet into a `file_error` finding.
- The failure branch of `_generate_report` is not modelled. No modelled input raises in its body, and the branch would itself fail because `traceback` is never imported.
- The unused `_analyze_file` duplicate is not modelled.
- Case mapping (`upper`, `lower`, `title`) covers ASCII letters only, and `int()` covers ASCII digits only.
- The text of the `ValueError` raised by unpacking more than two parts is "too many values to unpack (expected 2)", as CPython 3.13 and earlier word it. CPython 3.14 adds the number of values received.
- A model entry without a 'name' key would raise `KeyError` in `check_required_models`; the reply is modelled as a list of names, so this case is not represented.
- ScanPipeline.FilePercent: computes `35 + (30 * (i + 1)) // n` on exact integers. The source multiplies a float quotient by 30 and truncates, which could differ only where the float product falls just below an integer.
- PdfReport.CalculatePercentage: rounds the exact quotient half to even. The source rounds a float quotient, which can differ on a tie that the float does not represent exactly.
- PdfReport.AnalysisMentions: proves that the critical and high sentences appear when their counts are positive, not that they are absent otherwise.
- ScanPipeline.ProgressMeaning: a progress report is its step and percentage. The `details` dict `_update_progress` passes to the callback (file counts, the current file name, the error text) is left out.
- PdfReport.AnalysisText: uses the corrected critical sentence, so with critical findings its text differs from the code's. `PdfReport.AnalysisTextAsWritten` is the code's text, and `PdfReport.AnalysisAsWrittenAgrees` shows the two agree without critical findings.
- PdfReport.SeverityRows: takes the total as a number. The code's default of 1 for a summary without `total_vulnerabilities` is not represented.
- PdfReport.GroupsMatchBreakdown: findings whose severity is not one of the four appear in no table; the model counts them rather than listing them.
- The summary of a dependency finding has no file, so its cleaned form names the file 'unknown'.

## Findings

| source | as written | input that shows it | evidently intended | confidence | as-written member | corrected member |
|---|---|---|---|---|---|---|
| langchain-repo-scanner/pdf_generator.py:381 | the noun is built as `vulnerability` followed by `'ies'` or `'y'` | one critical finding gives "1 critical vulnerabilityy"; two give "2 critical vulnerabilityies" | "vulnerability" for one, "vulnerabilities" for more | not executed | PdfReport.CriticalSentenceMisspelt | PdfReport.CriticalSentence |

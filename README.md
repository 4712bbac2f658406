# github-analyzer commit-metrics pipeline in Dafny

This project models the core of github-analyzer, a back end that rates a
GitHub user's skills from their commits. The pipeline has three stages:

1. **Reading and classifying.** A commit's changed files are read from git
   numstat output and diffs (`LocalGit`). Each file gets a language from its
   extension (`SkillsUtil`, `FrameworkDetector`). Each file gets frameworks
   from the import lines it contains (`ImportDetector`, `FrameworkDetector`).
2. **Per-commit metrics.** The added lines of every counted file are credited
   to its language and frameworks (`CommitExperienceMetrics`). The SonarQube
   measures of every file are summed or averaged per skill
   (`CommitQualityMetrics`, fed by `QualityScan`).
3. **Overall metrics.** The per-commit metrics are folded over all commits.
   This gives lines, repositories and first/last commit per skill
   (`OverallExperienceMetrics`), and per-commit means and A–E letter ratings
   per skill (`OverallQualityMetrics`).

Around these stages sit further pieces:

- the gitingest dump parser (`GitIngestParser`);
- the per-repository line-count fold (`ExtractMetrics`);
- the cross-repository sums and unions (`ScoringEngine`);
- the MongoDB store of per-commit metrics (`Db`).

Imperative code is modelled as methods with loops. Each method is proved
equal to a specification function, and the lemmas about that function state
what the code promises. Objects whose fields the code updates are modelled
as classes:

- `Models.CommitDetails`, whose files the classifiers and the diff loop update;
- `Db.MongoDB`, whose two collections the saves update.

Helper modules model Python built-ins:

- `Strings`: `str.strip`, `split`, `find`/`rfind`, `lower`, `count`, `replace`, `int()`;
- `Dicts`: insertion-ordered `dict`;
- `Counters`: `defaultdict(int)` and `defaultdict(float)`;
- `Wrappers`: `Option`/`Result`.

A Python exception is an `Err` that carries the exception's text.

Where the code and the project's own description disagree, the model follows
the code:

- **Zero-commit skills stay.** The overall quality fold keeps a skill that no
  commit lists, with every field None (metrics_util.py:250-252). It does not
  drop the skill.
- **The exclusion list never matches.** The exclusion list that
  `get_experience_metrics` is given holds `FileInfo` records. The function
  compares it against paths (metrics_util.py:24, skills_util.py:78). The
  model keeps the signature, a list of excluded paths.
- **The React branch is dead for git-read extensions.** `detect_language`
  compares against dotted extensions. The extensions the git reader produces
  carry no dot, so that branch is never taken for them
  (`FrameworkDetector.DetectLanguageUndotted`).
- **The JavaScript sample's comment is wrong.** The worked JavaScript example
  expects `fs` from `const fs = require('fs');`. No keyword starts that line,
  so it yields nothing (`ImportDetector.JavaScriptSampleRequire`).

Timestamps are integer instants, and the UTC normalisation is the identity.
Scanner measures and averages are real numbers, and `round(x, 1)` is a
function parameter `round`.

## Model

| member | source | states |
|---|---|---|
| CommitExperienceMetrics.AddSkillsKeys | backend/src/utils/metrics_util.py:35-39 | the skill loop adds exactly the skills of the list as keys, keeping the earlier ones |
| CommitExperienceMetrics.AddSkillsCount | backend/src/utils/metrics_util.py:35-38 | after the skill loop, each skill's count grows by the file's additions times the number of times the skill occurs in the list |
| CommitExperienceMetrics.CommitLinesCount | backend/src/utils/metrics_util.py:23-38 | `lines_of_code[s]` is the additions credited to s: every counted file's additions, once per occurrence of s among its language and frameworks |
| CommitExperienceMetrics.CommitLinesKeys | backend/src/utils/metrics_util.py:23-39 | s is a key iff some counted file (path not excluded, language known) has s as its language or one of its frameworks |
| CommitExperienceMetrics.UncountedCreditsNothing | backend/src/utils/metrics_util.py:24-29 | an excluded file, or one with no language or with "Unknown", credits nothing to any skill |
| CommitExperienceMetrics.GetExperienceMetrics | backend/src/utils/metrics_util.py:14-40 | the `skills` set equals the key set of `lines_of_code`; the counts are those of the file fold; the timestamp and repository come from the commit |
| Models.FileSkillsOccurrences | backend/src/utils/metrics_util.py:30-34 | a file credits a skill once if it is its language, plus once for each time its frameworks list it |
| Models.Trunc | backend/src/utils/metrics_util.py:114 | `int(x)` truncates toward zero: for x ≥ 0 the result is the largest integer not above x; for x < 0 it is the smallest integer not below x |
| CommitQualityMetrics.InitMeasuresAt | backend/src/utils/metrics_util.py:90-108 | the initialising statements for one skill add (m, skill) at 0 for every reported m not yet present, and change nothing else |
| CommitQualityMetrics.InitSkillsAt | backend/src/utils/metrics_util.py:90-108 | the initialising loop adds exactly the keys (reported measure, listed skill) that are missing, at 0, and keeps every present value |
| CommitQualityMetrics.SumMeasuresSums | backend/src/utils/metrics_util.py:112-136 | the summing statements for one skill add each reported measure's contribution (`int()` for the whole-count measures) once, under that skill |
| CommitQualityMetrics.SumMeasuresCounts | backend/src/utils/metrics_util.py:121-136 | the summing statements add 1 to the file counter of each reported averaged measure for that skill, and leave the other counters |
| CommitQualityMetrics.SumSkillsSums | backend/src/utils/metrics_util.py:112-136 | the summing loop adds each reported measure's contribution once per occurrence of the skill in the list |
| CommitQualityMetrics.SumSkillsCounts | backend/src/utils/metrics_util.py:121-136 | the summing loop adds to an averaged measure's counter once per occurrence of the skill in the list |
| CommitQualityMetrics.TallyRecordAt | backend/src/utils/metrics_util.py:74-136 | one record adds its credit to each key's sum and its reports to each key's counter, and makes the keys it contributes present |
| CommitQualityMetrics.TallyRecordsAt | backend/src/utils/metrics_util.py:74-136 | over all records: a key is in the sums iff some record contributes it; its sum is the sum of the records' credits; an averaged key's counter is the number of reports; whole-count keys have no counter |
| CommitQualityMetrics.NumberOfPositive | backend/src/utils/metrics_util.py:141-150 | the divisor of an averaged key is positive iff some record contributes the key |
| CommitQualityMetrics.Finalized | backend/src/utils/metrics_util.py:139-150 | the values while the skills in `done` are averaged: same keys as the sums; an averaged key of a done skill with a positive counter is round(sum / count); every other key keeps its sum |
| CommitQualityMetrics.PartialStep | backend/src/utils/metrics_util.py:141-150 | averaging one more measure of the current skill changes that one key only |
| CommitQualityMetrics.PartialAll | backend/src/utils/metrics_util.py:141-150 | once all five averaged measures of a skill are done, the skill is done |
| CommitQualityMetrics.FinalizeSkill | backend/src/utils/metrics_util.py:141-150 | the five averaging statements for a skill give the values with that skill added to `done` |
| CommitQualityMetrics.CommitQualityValues | backend/src/utils/metrics_util.py:74-155 | the per-commit result has key (m, s) iff some counted record reports m for skill s; a whole-count value is the sum of `int()` of the reports; an averaged value is round(sum / number of reports), and that number is positive (corrected program; see Findings) |
| CommitQualityMetrics.CommitQualitySkills | backend/src/utils/metrics_util.py:140-153 | s is in the commit's `skills` iff some counted record reports an averaged measure for s, so a skill with only whole-count measures is absent |
| CommitQualityMetrics.TallyRecordAsWritten | backend/src/utils/metrics_util.py:83-108 | as written, one record's step raises iff the record belongs to a counted file; otherwise it leaves the tally as the corrected step does; see Findings |
| CommitQualityMetrics.TallyRecordsAsWritten | backend/src/utils/metrics_util.py:74-108 | as written, the record loop can only ever return the empty tally; see Findings |
| CommitQualityMetrics.AsWrittenRaises | backend/src/utils/metrics_util.py:107 | as written, the aggregation raises AttributeError iff some record belongs to a counted file; otherwise it yields the empty tally |
| CommitQualityMetrics.TallyFile | backend/src/utils/metrics_util.py:90-136 | the initialising and summing loops over one file's skills give the tally of that record |
| CommitQualityMetrics.TallyFiles | backend/src/utils/metrics_util.py:74-136 | the record loop, skipping records of unknown paths and unknown languages, gives the tally of all records (corrected program; see Findings) |
| CommitQualityMetrics.AverageAll | backend/src/utils/metrics_util.py:140-153 | the averaging loop gives the finalized values over all counter skills, and collects exactly those skills |
| CommitQualityMetrics.GetQualityMetrics | backend/src/utils/metrics_util.py:42-155 | None iff the scanner's stderr is non-empty or its stdout is empty; otherwise the skills, the commit's timestamp and the finalized values of the tallied records (corrected program; see Findings) |
| OverallExperienceMetrics.MergedStep | backend/src/utils/metrics_util.py:166-181 | merging one more skill of a commit changes that skill's entry only |
| OverallExperienceMetrics.AddCommitAt | backend/src/utils/metrics_util.py:166-181 | a commit's skill enters with its lines, timestamp and repository, or adds its lines and repository and widens the first/last timestamps; skills the commit lacks are unchanged |
| OverallExperienceMetrics.OverallHas | backend/src/utils/metrics_util.py:166-174 | a skill is in the result iff some commit has it |
| OverallExperienceMetrics.OverallSums | backend/src/utils/metrics_util.py:166-177 | a skill's lines are the sum, and its repositories the set, over the commits that have it |
| OverallExperienceMetrics.OverallFirst | backend/src/utils/metrics_util.py:166-179 | a skill's first timestamp is the earliest over the commits that have it |
| OverallExperienceMetrics.OverallLast | backend/src/utils/metrics_util.py:166-181 | a skill's last timestamp is the latest over the commits that have it |
| OverallExperienceMetrics.OverallAt | backend/src/utils/metrics_util.py:157-183 | s is in the result iff some commit has it; its lines are the sum over the commits; its repositories are those of the commits that have s; the first and last timestamps are the minimum and maximum over those commits |
| OverallExperienceMetrics.FirstNotAfterLast | backend/src/utils/metrics_util.py:178-181 | every skill's first commit is not after its last |
| OverallExperienceMetrics.LinesOfPermutation | backend/src/utils/metrics_util.py:176 | a skill's summed lines do not depend on the order of the commits |
| OverallExperienceMetrics.OverallPermutationAt | backend/src/utils/metrics_util.py:159-181 | two orderings of the same commits agree on whether a skill is present and on its entry |
| OverallExperienceMetrics.OverallPermutation | backend/src/utils/metrics_util.py:159-181 | any reordering of the commits gives the same overall experience |
| OverallExperienceMetrics.AddCommitSkills | backend/src/utils/metrics_util.py:166-181 | the loop over one commit's skills gives the commit merged into the entries |
| OverallExperienceMetrics.GetOverallExperienceMetrics | backend/src/utils/metrics_util.py:157-183 | the loop over the commits, in dictionary order, gives the fold of the commits |
| OverallQualityMetrics.RatingLetter | backend/src/utils/metrics_util.py:265-276 | the letter is one character between A and E |
| OverallQualityMetrics.RatingLetterBuckets | backend/src/utils/metrics_util.py:267-276 | letter n (A is 0) covers ratings above n + 0.5 (for n > 0) up to and including n + 1.5 (for n < 4): ≤1.5 A, ≤2.5 B, ≤3.5 C, ≤4.5 D, else E |
| OverallQualityMetrics.RatingLetterMonotone | backend/src/utils/metrics_util.py:267-276 | a higher rating never gets an earlier letter |
| OverallQualityMetrics.AllSkillsAt | backend/src/utils/metrics_util.py:192-202 | s is collected iff some commit has s in one of its nine measure dictionaries |
| OverallQualityMetrics.SumsAt | backend/src/utils/metrics_util.py:228-247 | the per-skill sum of a measure is the sum over the commits of their value for it (0 when absent) |
| OverallQualityMetrics.TotalsAt | backend/src/utils/metrics_util.py:248-249 | `total_commits[s]` is the number of commits listing s, and it is 0 iff no commit lists s |
| OverallQualityMetrics.OverallQualityAt | backend/src/utils/metrics_util.py:185-263 | s is in the result iff some commit has a measure for s; with no commit listing s the entry is all None; otherwise each field is the summed measure divided by the number of commits listing s: rounded, truncated for vulnerabilities, a letter for the three ratings |
| OverallQualityMetrics.CollectSkills | backend/src/utils/metrics_util.py:192-202 | the first loop over the commits collects the skills of all commits |
| OverallQualityMetrics.AddValues | backend/src/utils/metrics_util.py:230-247 | the nine `+=` loops of one commit add its values key by key into the sums |
| OverallQualityMetrics.TickSkills | backend/src/utils/metrics_util.py:248-249 | the `total_commits` loop of one commit ticks each of its skills |
| OverallQualityMetrics.SumCommits | backend/src/utils/metrics_util.py:228-249 | the second loop over the commits gives the sums and the commit counts of all commits |
| OverallQualityMetrics.InitEntries | backend/src/utils/metrics_util.py:205-216 | every collected skill starts with the all-None entry |
| OverallQualityMetrics.FillEntries | backend/src/utils/metrics_util.py:250-261 | the last loop gives each skill with a positive commit count its means and letters, and leaves the others all None |
| OverallQualityMetrics.GetOverallQualityMetrics | backend/src/utils/metrics_util.py:185-263 | the whole function gives the overall quality of the commits in dictionary order |
| ImportDetector.KeywordEntries | backend/src/utils/import_detector.py:7-51 | the Python, JavaScript and Java keyword lists are as tabled, and Lua has none |
| ImportDetector.Unquote | backend/src/utils/import_detector.py:137-139 | text longer than one character that starts and ends with the same quote yields its inside; anything else yields None |
| ImportDetector.NoQuoteNoFirstQuote | backend/src/utils/import_detector.py:85-94 | when no quote occurs, the forward search finds none either, so the fallback of the `import` rule always yields None |
| ImportDetector.ExtractModuleName | backend/src/utils/import_detector.py:58-66 | an empty payload after the keyword yields None |
| ImportDetector.ExtractOfPayload | backend/src/utils/import_detector.py:65-161 | the name is the rule's cut of the stripped text after the keyword |
| ImportDetector.FirstKeyword | backend/src/utils/import_detector.py:197-204 | the index of the first keyword, in list order, that prefixes the line (no earlier keyword does), or -1 when none does |
| ImportDetector.LineImport | backend/src/utils/import_detector.py:189-204 | a line yields a non-empty name only if it is non-blank, not comment-like, and starts with a keyword |
| ImportDetector.ImportsOfLinesStep | backend/src/utils/import_detector.py:189-204 | one more line adds exactly the name it yields |
| ImportDetector.ImportsOfLinesMember | backend/src/utils/import_detector.py:189-206 | a name is found iff some line yields it |
| ImportDetector.NoKeywordsNoImports | backend/src/utils/import_detector.py:181-185 | with no keywords nothing is found |
| ImportDetector.FindImportsForLanguage | backend/src/utils/import_detector.py:165-206 | a language that is not in the table gives the empty set; otherwise the names the content's lines yield |
| ImportDetector.FindImportsInLines | backend/src/utils/import_detector.py:187-206 | the line loop with `continue` and `break` gives exactly the names the lines yield |
| ImportDetector.PythonFromName | backend/src/utils/import_detector.py:69-71 | `from pkg.sub ...` names the top-level package pkg |
| ImportDetector.PythonImportName | backend/src/utils/import_detector.py:72-74 | `import pkg.sub ...` (and `import pkg as x`) names the top-level package pkg |
| ImportDetector.SemicolonTerminatedName | backend/src/utils/import_detector.py:76-77 | Java `import`, C# `using` and Rust `extern crate` name the stripped text before the first ';' |
| ImportDetector.KotlinName | backend/src/utils/import_detector.py:79-80 | Kotlin keeps the whole stripped payload |
| ImportDetector.JsImportQuoted | backend/src/utils/import_detector.py:95-100 | the `import` rule returns the text between the last two quotes of the kind that occurs last |
| ImportDetector.JsImportModuleName | backend/src/utils/import_detector.py:82-100 | `import ... from 'module'` and `import 'module'` name the module, with either quote |
| ImportDetector.RequireName | backend/src/utils/import_detector.py:102-108 | `require('module')` in JavaScript and PHP names the quoted module |
| ImportDetector.GoImportPath | backend/src/utils/import_detector.py:110-112 | Go `import "path"` names the path |
| ImportDetector.PhpUseName | backend/src/utils/import_detector.py:126-133 | PHP `use Name;` names the path before the ';' |
| ImportDetector.RustUseCrate | backend/src/utils/import_detector.py:114-121 | Rust `use crate::path;` names the crate |
| ImportDetector.RubyRequireName | backend/src/utils/import_detector.py:135-139 | Ruby `require 'gem'` and `require_relative 'path'` name the quoted text |
| ImportDetector.RubyIncludeName | backend/src/utils/import_detector.py:141-143 | Ruby `include Module` names the first word |
| ImportDetector.DartImportUri | backend/src/utils/import_detector.py:145-155 | Dart `import 'uri';` names the uri when it holds no space |
| ImportDetector.ListsPrefixFree | backend/src/utils/import_detector.py:7-51 | no keyword of any language's list is a prefix of another keyword of that list |
| ImportDetector.KeywordsPrefixFree | backend/src/utils/import_detector.py:7-51 | every tabled language's list is prefix-free |
| ImportDetector.FirstKeywordOfPrefixFree | backend/src/utils/import_detector.py:197-204 | with a prefix-free list, the keyword a line starts with is the one matched, so each line is matched by at most one keyword |
| ImportDetector.LineImportOf | backend/src/utils/import_detector.py:189-204 | an indented line starting with a keyword yields that keyword's extraction from the stripped line |
| ImportDetector.LineWithoutKeyword | backend/src/utils/import_detector.py:197-204 | a line that no keyword starts yields nothing |
| ImportDetector.CommentLine | backend/src/utils/import_detector.py:192-194 | a line whose stripped text starts with `#`, `//`, `--` or `/*` yields nothing |
| ImportDetector.PythonLine | backend/src/utils/import_detector.py:8-11 | a Python line starting with `from ` or `import ` uses that keyword's rule |
| ImportDetector.PythonSampleComment | backend/src/utils/import_detector.py:217 | the commented-out import of the Python sample yields nothing |
| ImportDetector.JavaScriptLine | backend/src/utils/import_detector.py:18-21 | a JavaScript line starting with `import ` or `require(` uses that keyword's rule |
| ImportDetector.JavaScriptSampleRequire | backend/src/utils/import_detector.py:227 | `const fs = require('fs');` yields nothing, against the sample's comment |
| ImportDetector.JavaLine | backend/src/utils/import_detector.py:12-14 | a Java line starting with `import ` uses the ';' rule |
| FrameworkDetector.DictOfDistinct | backend/src/utils/framework_detector.py:188-253 | the framework table, a dictionary display, has distinct keys |
| FrameworkDetector.NewDetector | backend/src/utils/framework_detector.py:255-275 | one document per framework (its imports joined by spaces) and the framework names in table order, all distinct |
| FrameworkDetector.BuildDetector | backend/src/utils/framework_detector.py:259-275 | the construction loop over any table with distinct keys gives one document per entry and the names in order |
| FrameworkDetector.DetectLanguage | backend/src/utils/framework_detector.py:277-307 | a script extension (.js, .jsx, .ts, .tsx, any case) always gets one of the four script languages; the two lemmas below say which, and what any other extension gets |
| FrameworkDetector.DetectLanguageCaseInsensitive | backend/src/utils/framework_detector.py:288 | only the lower-cased extension matters: extensions differing only in case, with the same content, get the same language |
| FrameworkDetector.DetectLanguageUndotted | backend/src/utils/framework_detector.py:288-307 | an extension without a leading dot gets the table entry of its lower-cased form, or "Unknown" |
| FrameworkDetector.DetectLanguageDotted | backend/src/utils/framework_detector.py:291-304 | .jsx and .tsx always give the React variant; .js and .ts give it iff the content has `import React`, `from 'react'` or `from "react"` |
| FrameworkDetector.Selected | backend/src/utils/framework_detector.py:374-379 | a framework is selected iff its score is strictly above 0.1, in detector order |
| FrameworkDetector.SelectedDistinct | backend/src/utils/framework_detector.py:375-379 | selecting from distinct names gives distinct names |
| FrameworkDetector.DetectFrameworks | backend/src/utils/framework_detector.py:355-404 | the list is empty without content or imports; otherwise the selected names in order, then the React and Django overrides |
| FrameworkDetector.NothingWithoutImports | backend/src/utils/framework_detector.py:355-362 | no content, or no import found, gives an empty list and no override fires |
| FrameworkDetector.OverridesShape | backend/src/utils/framework_detector.py:386-402 | React is appended only for a JavaScript/TypeScript file with no selected name "react" in any case and a React sign in the content; Django only for Python when absent and one of its signs holds (`and` binding tighter than `or`); in that order |
| FrameworkDetector.ClassMetaHasClass | backend/src/utils/framework_detector.py:401 | `"class meta:"` in the content implies `"class"` in it, so the middle conjunct of the Django test adds nothing |
| FrameworkDetector.OverridesDistinct | backend/src/utils/framework_detector.py:386-402 | the overrides never add a name already present |
| FrameworkDetector.FrameworksDistinct | backend/src/utils/framework_detector.py:375-404 | the returned list has no duplicate names |
| FrameworkDetector.ProcessFileInfo | backend/src/utils/framework_detector.py:420-422 | only the frameworks are replaced (by the detected list); the language and every other field stay |
| SkillsUtil.IdentifySkills | backend/src/utils/skills_util.py:72-75 | every file's language is overwritten from its extension and the same commit object is returned, its other fields unchanged |
| SkillsUtil.LabelAllKeeps | backend/src/utils/skills_util.py:72-75 | labelling keeps the keys, their order and distinctness, and every field of a file but the language |
| SkillsUtil.ExcludedFiles | backend/src/utils/skills_util.py:77-78 | the excluded files are exactly the files with no language, as records |
| SkillsUtil.ExcludedIffUnmapped | backend/src/utils/skills_util.py:68-78 | after labelling, a file is excluded iff its extension is not a key of the table (the lookup is exact and case-sensitive) |
| GitIngestParser.ChunksAfterPreamble | backend/src/utils/gitingest_parser_util.py:22 | the text before the first separator of the left-stripped dump is dropped; no separator gives no chunks |
| GitIngestParser.FileNameNone | backend/src/utils/gitingest_parser_util.py:26 | a header names a file iff it holds `"File: "`; otherwise the split raises IndexError |
| GitIngestParser.FileNameOfHeader | backend/src/utils/gitingest_parser_util.py:26 | the name is the text after the first `"File: "` of the header, up to any second one, stripped: the first piece of the split of what follows the first marker |
| GitIngestParser.EntriesLength | backend/src/utils/gitingest_parser_util.py:21-24 | the loop visits one entry per complete (header, content) pair |
| GitIngestParser.ParsedFileFields | backend/src/utils/gitingest_parser_util.py:27-32 | the extension is the text after the last '.', or the whole name; the line count is the number of newlines; the char count is the length; the language is the table entry of the extension |
| GitIngestParser.EntryAt | backend/src/utils/gitingest_parser_util.py:23-28 | there are ⌊chunks/2⌋ entries, and entry k pairs chunk 2k's name with chunk 2k+1 |
| GitIngestParser.Records | backend/src/utils/gitingest_parser_util.py:25-32 | one record per entry |
| GitIngestParser.RecordAt | backend/src/utils/gitingest_parser_util.py:25-32 | record k is the record of entry k, in input order |
| GitIngestParser.NextEntry | backend/src/utils/gitingest_parser_util.py:25-32 | one more named entry appends its record |
| GitIngestParser.Parse | backend/src/utils/gitingest_parser_util.py:21-33 | succeeds iff every header names a file, and then returns the records of the entries in order |
| GitIngestParser.ParseChunks | backend/src/utils/gitingest_parser_util.py:23-33 | the index loop over the chunk pairs gives the same outcome |
| ExtractMetrics.LinesByLanguageCount | backend/src/services/extract_metrics.py:11-12 | `lines_of_code[l]` is the line count of the files whose language is l, None included |
| ExtractMetrics.LinesByLanguageKeys | backend/src/services/extract_metrics.py:11-12 | the keys are exactly the languages of the files |
| ExtractMetrics.LinesByLanguageTotal | backend/src/services/extract_metrics.py:11-12 | the values add up to the line count of all the files |
| ExtractMetrics.CountLines | backend/src/services/extract_metrics.py:10-12 | the inner loop gives the line-count fold of the repository's files |
| ExtractMetrics.Extract | backend/src/services/extract_metrics.py:7-15 | the same user is returned with the same repositories; each repository's metrics are the fold of its own files |
| ScoringEngine.AllLanguagesMember | backend/src/services/scoring_engine.py:15 | a language is in the response iff some repository lists it |
| ScoringEngine.AllFrameworksMember | backend/src/services/scoring_engine.py:16 | a framework is in the response iff some repository lists it |
| ScoringEngine.SumAtSnoc | backend/src/services/scoring_engine.py:18-20 | one more repository adds its own count for the key |
| ScoringEngine.TotalLinesAt | backend/src/services/scoring_engine.py:18-20 | `total_lines_of_code[k]` is the sum over the repositories of their count for k, and k is a key iff some repository has it |
| ScoringEngine.MessageNamesCount | backend/src/services/scoring_engine.py:28 | the greeting is `Hello, {username}!, you have {n} public repos` with n written in decimal |
| ScoringEngine.AddCounts | backend/src/services/scoring_engine.py:18-20 | the inner loop adds one repository's counts into the total key by key |
| ScoringEngine.ScoreStep | backend/src/services/scoring_engine.py:14-25 | one more repository adds its languages, frameworks, URL and line counts, and the prefix stays measured iff it has metrics |
| ScoringEngine.Score | backend/src/services/scoring_engine.py:9-30 | over the repositories' fields at the call: raises iff some repository has no metrics; otherwise the username, the name "asdf", the URLs, the unions of languages and frameworks, the greeting and the summed counts |
| LocalGit.ParentSha | backend/src/utils/local_git_util.py:30-33 | the first parent, or the empty-tree SHA for a root commit |
| LocalGit.ParseCountOfNat | backend/src/utils/local_git_util.py:42-43 | a count git writes is read back by `int()` |
| LocalGit.StatLineRoundTrip | backend/src/utils/local_git_util.py:40-43 | the line `<added>\t<deleted>\t<path>` reads back as that path and those counts |
| LocalGit.BinaryStatLine | backend/src/utils/local_git_util.py:42-43 | `-\t-\t<path>` counts 0 additions and 0 deletions |
| LocalGit.StatLineFields | backend/src/utils/local_git_util.py:40 | a line that parses has exactly two tabs, and its path is the text after the second |
| LocalGit.StatsOfErrKeeps | backend/src/utils/local_git_util.py:38-45 | a line that fails to parse aborts the loop: its error is the outcome of every longer input |
| LocalGit.StatsOfOk | backend/src/utils/local_git_util.py:38-45 | the numstat reads without error iff no line fails to parse |
| LocalGit.LastStatSpec | backend/src/utils/local_git_util.py:45 | the counts recorded for p are those of the last line naming p |
| LocalGit.StatsOfGet | backend/src/utils/local_git_util.py:45 | `file_stats` has distinct keys and holds, for each path, the counts of its last line, so a later line overwrites an earlier one |
| LocalGit.StatsOfNext | backend/src/utils/local_git_util.py:38-45 | one more line updates the stats by its reading |
| LocalGit.ParseNumstat | backend/src/utils/local_git_util.py:35-45 | the numstat loop gives the stats of the stripped, split lines |
| LocalGit.FileInfoFields | backend/src/utils/local_git_util.py:74-88 | a record holds the path, the text after the last '.', the newline count, the length and the counts |
| LocalGit.DiffStepAsWritten | backend/src/utils/local_git_util.py:60-79 | as written: renames are skipped, and every other diff raises KeyError when its b-side path is None or missing from the stats; see Findings |
| LocalGit.DiffStep | backend/src/utils/local_git_util.py:60-89 | renames and diffs without a b-side path are skipped; a path missing from the stats raises KeyError; otherwise the file's record (corrected program; see Findings) |
| LocalGit.DiffStepAgrees | backend/src/utils/local_git_util.py:71-79 | the corrected step and the written one agree on every diff with a b-side path |
| LocalGit.UnnamedDiffRaises | backend/src/utils/local_git_util.py:71-79 | a diff whose b-side path is None raises as written and is skipped by the corrected step |
| LocalGit.ApplyStepsOk | backend/src/utils/local_git_util.py:60-89 | the diff loop finishes iff no step fails |
| LocalGit.LastRecordSpec | backend/src/utils/local_git_util.py:89 | the record of p is that of the last step recording p |
| LocalGit.ApplyStepsGet | backend/src/utils/local_git_util.py:89 | the files keep distinct keys, and after the loop the entry for p is the last record for p, or the earlier entry when no step records p |
| LocalGit.ApplyStepsErrKeeps | backend/src/utils/local_git_util.py:60-89 | an error ends the loop: later diffs change nothing |
| LocalGit.AddDiffs | backend/src/utils/local_git_util.py:60-89 | the diff loop updates the commit's files in place as the steps say; the other fields stay (corrected program; see Findings) |
| LocalGit.GetCommitDetails | backend/src/utils/local_git_util.py:14-91 | the numstat error, or the diff loop's error, or the same commit with its files updated (corrected program; see Findings) |
| LocalGit.CloneUrlInjective | backend/src/utils/local_git_util.py:105 | different repository URLs give different clone URLs |
| LocalGit.ClonePathOfGithubUrl | backend/src/utils/local_git_util.py:104 | a GitHub URL is cloned under the base directory at its owner/name path |
| LocalGit.ClonePathOfOtherUrl | backend/src/utils/local_git_util.py:104 | any other URL is the path unchanged |
| QualityScan.ProjectKey | backend/src/utils/quality_scan.py:20 | the project key is `commit_` followed by the hash |
| QualityScan.ProjectKeyInjective | backend/src/utils/quality_scan.py:20 | different commits get different keys |
| QualityScan.ScannerCommand | backend/src/utils/quality_scan.py:18-29 | nine arguments: `sonar-scanner`, the project key, and the sources set to the repository path |
| QualityScan.AnalyzeCommitFiles | backend/src/utils/quality_scan.py:14-39 | the scanner's (stdout, stderr) of that command, unmodified |
| QualityScan.MeasuresOfScannedProject | backend/src/utils/quality_scan.py:20-52 | the measures are requested for the component the scan wrote |
| QualityScan.SetMeasureField | backend/src/utils/quality_scan.py:77-98 | a recognised metric sets its own field and no other; an unrecognised one changes nothing |
| QualityScan.ApplyMeasuresField | backend/src/utils/quality_scan.py:76-98 | after the measure loop a field holds the last value reported for it, or stays as it was |
| QualityScan.LastValueSpec | backend/src/utils/quality_scan.py:76-98 | the last value of a metric is that of its last measure, and is None iff no measure has that name |
| QualityScan.CleanPathUnderDir | backend/src/utils/quality_scan.py:70 | a path under the scanned directory loses that prefix |
| QualityScan.CleanPathElsewhere | backend/src/utils/quality_scan.py:70 | a path without the directory in it is kept |
| QualityScan.KeptCountSnoc | backend/src/utils/quality_scan.py:65-72 | one more component counts iff it is a file whose cleaned path is not excluded |
| QualityScan.RecordsSpec | backend/src/utils/quality_scan.py:65-100 | one record per kept component, in component order, each built from its own measures |
| QualityScan.ReadMeasures | backend/src/utils/quality_scan.py:74-98 | the measure loop applies the measures to the all-None record of the path |
| QualityScan.GetQualityMetricsForFiles | backend/src/utils/quality_scan.py:59-102 | raises with the response text iff the status is not 200; otherwise the records of the components |
| Db.FindIndex | backend/src/db/db.py:19-25 | the first stored document with both the commit hash and the repository URL, or None iff there is none |
| Db.UpsertExisting | backend/src/db/db.py:50-55 | on an existing key: same size; the found document keeps its id and `created_at` and takes the fields, the timestamp and `updated_at`; the id returned is its own; others unchanged |
| Db.UpsertNew | backend/src/db/db.py:56-59 | on a new key: exactly one document is appended, with the new id and `created_at`, and that id is returned |
| Db.SaveThenFind | backend/src/db/db.py:37-59 | a find after a save under the same key gives the saved fields and timestamp under the returned id, so the last write wins |
| Db.SaveKeepsOtherKeys | backend/src/db/db.py:37-59 | a save under one key leaves what a find under any other key returns |
| Db.SaveIdempotent | backend/src/db/db.py:37-59 | saving the same metrics twice at the same instant leaves the collection as one save does |
| Db.UpsertKeepsInvariant | backend/src/db/db.py:37-59 | saves keep at most one document per key and distinct ids |
| Db.InRange | backend/src/db/db.py:132-140 | the documents of the repository with start ≤ timestamp ≤ end |
| Db.SortByTimeSorted | backend/src/db/db.py:135 | the sort orders ascending by timestamp and is a permutation |
| Db.WindowCorrect | backend/src/db/db.py:132-140 | the date-range answer is ascending and holds exactly the repository's documents within the window, each as often as stored |
| Db.MongoDB.constructor | backend/src/db/db.py:8-14 | both collections start empty |
| Db.MongoDB.FindCommitExperienceMetrics | backend/src/db/db.py:17-30 | None iff no document has the key; otherwise that document's lines of code and timestamp and nothing else |
| Db.MongoDB.SaveCommitExperienceMetrics | backend/src/db/db.py:32-59 | the experience collection is upserted and the returned id is the found or the new one; the quality collection is unchanged |
| Db.MongoDB.FindCommitQualityMetrics | backend/src/db/db.py:62-85 | None iff no document has the key; otherwise that document's timestamp and eleven dictionaries |
| Db.MongoDB.SaveCommitQualityMetrics | backend/src/db/db.py:87-124 | the quality collection is upserted and the returned id is the found or the new one; the experience collection is unchanged |
| Db.MongoDB.GetCommitMetricsByDateRange | backend/src/db/db.py:127-145 | both collections' windows for the repository, each ascending by timestamp |

## Left out

- The orchestration in `analysis_service.py` is not part of this model: calls to GitHub, git, the scanner and MongoDB. It also unpacks three values from `identify_skills` and passes the store's arguments in swapped order.
- Nor are the GitHub client, the LLM and gitingest ingestion services, the FastAPI routers, configuration, logging and the front end: they are network calls, UI or bootstrap.
- `print` and logger calls are left out; `async` is ignored.
- The TF-IDF vectoriser and cosine similarity are the parameter `score` of `FrameworkDetector.DetectFrameworks`: they are sklearn floating point. The regex-based `extract_imports` is not modelled: `detect_frameworks` does not call it.
- FrameworkDetector.NewDetector: the fitted vectoriser and its matrix are not part of the detector's state.
- `round(x, 1)` is the parameter `round`; floating-point rounding error in sums and divisions is not modelled (reals).
- Scanner measure values are JSON strings; they are modelled as the real numbers they spell, with `float()` as the identity. The four whole-count measures are assumed to be integer strings: `int()` raises ValueError on a decimal string such as "3.5", which the model does not capture; on an integer value `Models.Trunc` is the identity.
- `datetime` values are integers; `datetime.utcnow()` is the parameter `now`, read once per save, so `created_at` equals `updated_at` on an insert.
- The scanner subprocess is the parameter `run` of `QualityScan.AnalyzeCommitFiles`. The HTTP response is the parameter of `QualityScan.GetQualityMetricsForFiles`, and its JSON decoding is left out.
- CommitQualityMetrics.GetQualityMetrics: takes the scanner's stdout and stderr and the scanner records as parameters, in place of the scanner and HTTP calls.
- Git access is left out. The numstat text and the diff list are parameters of `LocalGit.GetCommitDetails`, with each blob's decoded text. The `InvalidGitRepositoryError`/`BadName` handlers wrap calls the model does not make.
- `clone_repo`'s directory removal and the clone itself are I/O; only the two paths it builds are modelled.
- MongoDB is two in-memory sequences. `_id` is a counter shared by both collections, and the returned id is that number, not its string form.
- Db.MongoDB.GetCommitMetricsByDateRange: documents with equal timestamps keep their stored order, an order MongoDB's sort does not promise.
- Db.MongoDB.FindCommitQualityMetrics: models the shape the store reads (timestamp and eleven dictionaries). That shape does not match the per-commit quality result that `metrics_util.py` builds.
- `FileInfo` is a value. `process_file_info` updates the record in place; the model returns the updated record, so aliasing of file records is not modelled.
- OverallExperienceMetrics.GetOverallExperienceMetrics: the `skill is None` skip (metrics_util.py:167) cannot fire with string keys and is not modelled.
- Exceptions are `Err` values carrying the exception's text. Tracebacks and exception classes are not modelled.
- `str.lower()` is ASCII-only; Unicode case mapping is left out. (`str.strip()`/`split()` use Python's full `isspace` set, Unicode spaces included.)
- ScoringEngine.Score: `list(languages)` and `list(frameworks)` are returned as sets, since the order of a Python set is unspecified.
- `core/models.py` does not match its users, and the model follows the fields the core files read and write. models.py defines no `Metrics`, `OverallExperienceMetrics` or `OverallQualityMetrics`, so the imports at extract_metrics.py:2, scoring_engine.py:3 and metrics_util.py:3 fail as written. What follows describes the program once those imports resolve.
- CommitExperienceMetrics.GetExperienceMetrics: builds the record with the `skills` and `repo_url` that metrics_util.py:16-21 passes; the dataclass at models.py:12-15 has neither, so as written the constructor raises TypeError.
- CommitQualityMetrics.GetQualityMetrics: builds the record with the `skills` and `maintainability_rating` of metrics_util.py:54-66; the dataclass at models.py:31-44 has neither (and requires fields the call omits), so as written the constructor raises TypeError. It also models the corrected tally of the metrics_util.py:107 row under Findings, not the AttributeError that line raises.
- CommitQualityMetrics.TallyFiles: the corrected tally (see Findings); as written, the first record of a counted file raises AttributeError at metrics_util.py:107.
- CommitQualityMetrics.CommitQualityValues: states the values of the corrected tally (see Findings), which the program as written never reaches for a counted record.
- ExtractMetrics.Extract: reads `parsed_files` and writes `metrics` on each repository, fields that `RepoDetails` (models.py:82-87) does not declare.
- ScoringEngine.Score: builds the response with the `repos`, `languages`, `frameworks` and `metrics` fields that scoring_engine.py:22-30 passes; the pydantic `AnalyzeResponse` at models.py:95-100 has none of these and requires `experience_metrics` and `quality_metrics`, so as written it fails validation.
- Models.Repo: `languages` and `frameworks` are sequences, never None. models.py:85-86 defaults them to None, on which `set.update` at scoring_engine.py:15-16 raises TypeError; that case is not modelled.
- LocalGit.DiffStep: the corrected step (see Findings); as written, a diff whose `b_path` is None raises KeyError at local_git_util.py:71 before the skip at line 78.
- LocalGit.AddDiffs: composes the corrected `LocalGit.DiffStep`, not the written one (see Findings).
- LocalGit.GetCommitDetails: composes the corrected `LocalGit.DiffStep`, not the written one (see Findings).

## Findings

| source | as written | input that shows it | evidently intended | confidence | as-written member | corrected member |
|---|---|---|---|---|---|---|
| backend/src/utils/local_git_util.py:71-79 | the counts are looked up under `diff.b_path` (line 71) before the `b_path is None` check (line 78) | a diff whose `b_path` is None, if GitPython yields one | such a diff is skipped, as the check at line 78 intends | not executed | LocalGit.DiffStepAsWritten | LocalGit.DiffStep |
| backend/src/utils/metrics_util.py:107 | the aggregation reads `maintainability_rating` on a scanner record, whose dataclass has no such field (models.py:57 names it `sqale_rating`, and quality_scan.py:93-94 writes that one) | any scanner record of a commit file with a known language | the maintainability rating is SonarQube's `sqale_rating` | not executed | CommitQualityMetrics.TallyRecordsAsWritten | CommitQualityMetrics.TallyRecords |

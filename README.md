# Visual Studio solution-file serializer, modelled in Dafny

This project models the text serializer of R5T.Code.VisualStudio.SolutionFile.Types. It covers the component that reads a Visual Studio `.sln` file into a `SolutionFile` and writes a `SolutionFile` back out as `.sln` text. The other parts modelled are the two kinds of global section, the scope codec and the "Dependencies" solution-folder helpers.

Layout, one module per file:

- `wrappers.dfy`: `Option` and `Result`.
- `text.dfy`: the .NET string operations the serializer relies on: `Trim`, `Split(' ').Last()`, `IndexOf`, `LastIndexOf` and the `{0:00}` padding.
- `guids.dfy`: `Guid.Parse` and `Guid.ToString("B").ToUpperInvariant()`.
- `versions.dfy`: `Version.Parse`, `Version.ToString()` and the `Major.Minor:00` text.
- `nestings.dfy`: the project-nesting line.
- `utilities.dfy`: `ToPreOrPostSolution` and `ToStringStandard`.
- `sections.dfy`: the general and NestedProjects global sections and their `ContentLines`.
- `model.dfy`: `SolutionFileProjectReference`, and `SolutionFile` as a class with fields.
- `markers.dfy`: the six line patterns and the two value-extraction patterns.
- `grammar.dfy`: the reader and the writer as pure functions.
  - `Parse` is what `Deserialize` computes.
  - `Write` is what `Serialize` computes.
  - `Render` turns written lines into text lines.
- `roundtrip.dfy`: the proof that a well-formed document is written and then read back unchanged, except that the format version keeps only its major and minor parts (`WriteThenParse`).
- `reading.dfy`: what the reader promises of any text:
  - the layout of every accepted text;
  - the errors for a text that breaks that layout;
  - every document read from single lines is well formed, so it is written and read back unchanged (`ParseWriteParse`).
- `io.dfy`: a `TextReader` over lines, a `TextWriter` collecting lines, and the `TabinatedWriter`.
- `serializer.dfy`: `SolutionFileTextSerializer` as the source writes it:
  - methods with loops that advance a reader, append to a writer and fill a `SolutionFile` in place;
  - each method is proved equal to the matching function of `grammar.dfy`.
- `extensions.dfy`: `SolutionFileExtensions`: the Dependencies solution-folder lookup and add.

The .NET calls the serializer makes are modelled concretely, so the round trip rests on no assumption:

- A `Guid` is its 32 hexadecimal digits. `Guid.Parse` ignores white space around the text and accepts four forms, in either letter case:
  - N: 32 digits;
  - D: the digits hyphenated 8-4-4-4-12;
  - B: the D form in braces;
  - P: the D form in parentheses.
- The X form of `Guid.Parse` is refused (see "Left out").
- A `Version` is two to four components, each at most `int.MaxValue`. `Version.Parse` reads each component as `Int32.Parse` does: white space around it, then an optional `+` before the digits. A `-` is kept only before a zero value.
- `Render` puts one tab character before a line per level of `TabinatedWriter` depth.
- `ProjectNesting.Serialize` writes `{child} = {parent}`. `ProjectNesting.Deserialize` splits at the first `=` and trims both sides.

The last two are the conventional behaviour of `TabinatedWriter` and `ProjectNesting`, whose source is not part of this model.

Where the format's prose description and the code differ, the model follows the code:

- The header lines are never checked for their keywords. Only the last space-separated token of lines 2, 4 and 5 is parsed, with `Version.Parse`, which accepts two to four components.
- The first line, and the line after `EndGlobal`, are read but never looked at.
- Project lines are tested as read. Every line inside `Global` is trimmed first.

## Model

Source paths are relative to the root of the repository.

| member | source | states |
|---|---|---|
| Text.TrimIsTrimmed | source/R5T.Code.VisualStudio.SolutionFile.Types/Code/Model/IO/SolutionFileTextSerializer.cs:93 | the result of `Trim` neither starts nor ends with white space, and trimming again changes nothing |
| Text.TrimPadded | source/R5T.Code.VisualStudio.SolutionFile.Types/Code/Model/IO/SolutionFileTextSerializer.cs:93 | `Trim` removes exactly the white-space padding around a text that is already trimmed |
| Text.TrimWhereSingleLine | source/R5T.Code.VisualStudio.SolutionFile.Types/Code/Model/IO/SolutionFileTextSerializer.cs:93 | trimming a text with no line break leaves a text with no line break |
| Text.LastIndexOfCharIsLast | source/R5T.Code.VisualStudio.SolutionFile.Types/Code/Model/IO/SolutionFileTextSerializer.cs:24 | the greedy `\(.*\)` ends at the last `)`: no `)` follows the position found, and none exists when nothing is found |
| Text.IndexOfChar | source/R5T.Code.VisualStudio.SolutionFile.Types/Code/Model/IO/SolutionFileTextSerializer.cs:23 | the first position of the character: it is there and not before, and when none is found the character does not occur |
| Text.LastIndexOfChar | source/R5T.Code.VisualStudio.SolutionFile.Types/Code/Model/IO/SolutionFileTextSerializer.cs:24 | a position found holds the character |
| Text.SplitJoin | source/R5T.Code.VisualStudio.SolutionFile.Types/Code/Model/IO/SolutionFileTextSerializer.cs:232 | `Split` at a separator gives back the parts that were joined with it, when no part holds the separator |
| Text.Split | source/R5T.Code.VisualStudio.SolutionFile.Types/Code/Model/IO/SolutionFileTextSerializer.cs:232 | at least one part, none holding the separator |
| Text.SplitAtSeparator | source/R5T.Code.VisualStudio.SolutionFile.Types/Code/Model/IO/SolutionFileTextSerializer.cs:232 | splitting a text joined at one separator is splitting each side and concatenating the parts |
| Text.LastTokenAfterSpace | source/R5T.Code.VisualStudio.SolutionFile.Types/Code/Model/IO/SolutionFileTextSerializer.cs:232-233 | `Split(' ').Last()` of `prefix + " " + token` is `token` whenever `token` has no space |
| Text.DecimalString | source/R5T.Code.VisualStudio.SolutionFile.Types/Code/Model/IO/SolutionFileTextSerializer.cs:276 | the decimal text of a number is at least one digit and reads back as that number |
| Text.PadLeftZeros | source/R5T.Code.VisualStudio.SolutionFile.Types/Code/Model/IO/SolutionFileTextSerializer.cs:276 | the `:00` format pads with zeros to at least the width and keeps the value |
| Guids.ToStringBShape | source/R5T.Code.VisualStudio.SolutionFile.Types/Code/Model/IO/SolutionFileTextSerializer.cs:79 | the written GUID has braces, hyphens at the 8-4-4-4-12 places, each digit in upper case, and no quote, space or `=` |
| Guids.ToStringB | source/R5T.Code.VisualStudio.SolutionFile.Types/Code/Model/IO/SolutionFileTextSerializer.cs:79 | the braced form is 38 characters long |
| Guids.ParseToStringB | source/R5T.Code.VisualStudio.SolutionFile.Types/Code/Model/IO/SolutionFileTextSerializer.cs:199-200 | `Guid.Parse` of the written GUID gives the same GUID |
| Guids.ParseGuid | source/R5T.Code.VisualStudio.SolutionFile.Types/Code/Model/IO/SolutionFileTextSerializer.cs:199-200 | a GUID is read only from a text that, trimmed, has 32, 36 or 38 characters: the N, the D, or the B or P form |
| Guids.ParseHex | source/R5T.Code.VisualStudio.SolutionFile.Types/Code/Model/IO/SolutionFileTextSerializer.cs:199-200 | the N form of every GUID, its 32 digits, reads back as that GUID |
| Guids.ParseGuidPadded | source/R5T.Code.VisualStudio.SolutionFile.Types/Code/Model/IO/SolutionFileTextSerializer.cs:199-200 | white space around a GUID text does not change what `Guid.Parse` reads |
| Guids.ParseGuidTrimmed | source/R5T.Code.VisualStudio.SolutionFile.Types/Code/Model/IO/SolutionFileTextSerializer.cs:199-200 | `Guid.Parse` of a trimmed text reads the same as of the text itself |
| Versions.VersionTextHasNoSpace | source/R5T.Code.VisualStudio.SolutionFile.Types/Code/Model/IO/SolutionFileTextSerializer.cs:276-281 | a written version holds no space, so it is the last token of its header line |
| Versions.ParseVersion | source/R5T.Code.VisualStudio.SolutionFile.Types/Code/Model/IO/SolutionFileTextSerializer.cs:234 | a parsed version has two to four components, each at most int.MaxValue |
| Versions.ParseComponent | source/R5T.Code.VisualStudio.SolutionFile.Types/Code/Model/IO/SolutionFileTextSerializer.cs:234 | a component read is at most int.MaxValue |
| Versions.SignedValue | source/R5T.Code.VisualStudio.SolutionFile.Types/Code/Model/IO/SolutionFileTextSerializer.cs:234 | a signed number read is at most int.MaxValue |
| Versions.ComponentValues | source/R5T.Code.VisualStudio.SolutionFile.Types/Code/Model/IO/SolutionFileTextSerializer.cs:234 | one value per component, value i being what component i reads as, each at most int.MaxValue |
| Versions.ParseComponentDigits | source/R5T.Code.VisualStudio.SolutionFile.Types/Code/Model/IO/SolutionFileTextSerializer.cs:234 | plain digits within the int range read as their decimal value |
| Versions.NumberTextPadded | source/R5T.Code.VisualStudio.SolutionFile.Types/Code/Model/IO/SolutionFileTextSerializer.cs:234 | the white space `Int32.Parse` skips (tab to carriage return, and space) around a number is exactly what is removed |
| Versions.ParseComponentPlus | source/R5T.Code.VisualStudio.SolutionFile.Types/Code/Model/IO/SolutionFileTextSerializer.cs:234 | white space and a `+` around the digits are accepted, and the value is that of the digits |
| Versions.ParseComponentMinus | source/R5T.Code.VisualStudio.SolutionFile.Types/Code/Model/IO/SolutionFileTextSerializer.cs:234 | a `-` is accepted only before a zero value; every other negative component is refused |
| Versions.ParseVersionToString | source/R5T.Code.VisualStudio.SolutionFile.Types/Code/Model/IO/SolutionFileTextSerializer.cs:238-244 | `Version.Parse` of `Version.ToString()` gives the same version, for every version `Version.Parse` can produce |
| Versions.ParseMajorMinorText | source/R5T.Code.VisualStudio.SolutionFile.Types/Code/Model/IO/SolutionFileTextSerializer.cs:232-234 | reading back the written format version `Major.Minor:00` gives major and minor with no build or revision |
| Nestings.DeserializeSerializeNesting | source/R5T.Code.VisualStudio.SolutionFile.Types/Code/Model/IO/SolutionFileTextSerializer.cs:141 | deserializing the written nesting line gives back the same nesting |
| Nestings.DeserializeNesting | source/R5T.Code.VisualStudio.SolutionFile.Types/Code/Model/IO/SolutionFileTextSerializer.cs:141 | absent without `=`; present exactly when both sides of the first `=` read as GUIDs, and then the child is the left one and the parent the right one |
| Nestings.SerializeNesting | source/R5T.Code.VisualStudio.SolutionFile.Types/Code/Model/Classes/NestedProjectsSolutionFileGlobalSection.cs:19 | a nesting line is 79 characters: two braced GUIDs and ` = ` |
| Nestings.SerializeNestingShape | source/R5T.Code.VisualStudio.SolutionFile.Types/Code/Model/Classes/NestedProjectsSolutionFileGlobalSection.cs:19 | a nesting line starts with `{` and ends with `}` |
| Utilities.ToPreOrPostSolutionCases | source/R5T.Code.VisualStudio.SolutionFile.Types/Code/Model/Utilities.cs:10-23 | `"preSolution"` and `"postSolution"` map to their scopes, and every other text is the error case, in both directions |
| Utilities.ToStringStandardCases | source/R5T.Code.VisualStudio.SolutionFile.Types/Code/Model/Utilities.cs:25-38 | each scope has its own text, one of the two recognised ones |
| Utilities.ScopeRoundTrip | source/R5T.Code.VisualStudio.SolutionFile.Types/Code/Model/Utilities.cs:10-38 | reading a scope's standard text gives the scope back |
| Utilities.ScopeTextRoundTrip | source/R5T.Code.VisualStudio.SolutionFile.Types/Code/Model/Utilities.cs:10-38 | a recognised text is the standard text of the scope it maps to |
| Sections.ContentLines | source/R5T.Code.VisualStudio.SolutionFile.Types/Code/Model/Classes/GeneralSolutionFileGlobalSection.cs:9-10 | a general section's content lines are its stored lines; a NestedProjects section has one content line per nesting |
| Sections.SerializeNestingsAt | source/R5T.Code.VisualStudio.SolutionFile.Types/Code/Model/Classes/NestedProjectsSolutionFileGlobalSection.cs:13-23 | content line i of a NestedProjects section is `ProjectNesting.Serialize` of nesting i |
| Sections.SerializeNestings | source/R5T.Code.VisualStudio.SolutionFile.Types/Code/Model/Classes/NestedProjectsSolutionFileGlobalSection.cs:13-23 | one content line per nesting |
| Sections.SerializeNestingsAppend | source/R5T.Code.VisualStudio.SolutionFile.Types/Code/Model/Classes/NestedProjectsSolutionFileGlobalSection.cs:17-21 | one more nesting adds its line at the end of the content lines |
| Sections.NewGeneralSection | source/R5T.Code.VisualStudio.SolutionFile.Types/Code/Model/IO/SolutionFileTextSerializer.cs:152-156 | a new general section has the given name and scope and no content |
| Sections.NewNestedProjectsSection | source/R5T.Code.VisualStudio.SolutionFile.Types/Code/Model/IO/SolutionFileTextSerializer.cs:131-135 | a new NestedProjects section has the given name and scope and no nestings |
| Sections.AddLine | source/R5T.Code.VisualStudio.SolutionFile.Types/Code/Model/IO/SolutionFileTextSerializer.cs:162 | `Lines.Add` puts the line at the end of the content and keeps name, scope and kind |
| Sections.AddProjectNesting | source/R5T.Code.VisualStudio.SolutionFile.Types/Code/Model/IO/SolutionFileTextSerializer.cs:142 | `ProjectNestings.Add` puts the nesting at the end and keeps name, scope and kind |
| Sections.AddProjectNestingLines | source/R5T.Code.VisualStudio.SolutionFile.Types/Code/Model/Classes/NestedProjectsSolutionFileGlobalSection.cs:13-23 | after adding a nesting, the content lines gain its serialized line at the end |
| Model.SolutionFile.constructor | source/R5T.Code.VisualStudio.SolutionFile.Types/Code/Model/Classes/SolutionFile.cs:34-54 | a new solution file has no header property set and both lists empty |
| Model.SolutionFile.SetFormatVersion | source/R5T.Code.VisualStudio.SolutionFile.Types/Code/Model/Classes/SolutionFile.cs:34 | the setter changes that property and nothing else |
| Model.SolutionFile.SetVisualStudioMoniker | source/R5T.Code.VisualStudio.SolutionFile.Types/Code/Model/Classes/SolutionFile.cs:38 | the setter changes that property and nothing else |
| Model.SolutionFile.SetVisualStudioVersion | source/R5T.Code.VisualStudio.SolutionFile.Types/Code/Model/Classes/SolutionFile.cs:42 | the setter changes that property and nothing else |
| Model.SolutionFile.SetMinimumVisualStudioVersion | source/R5T.Code.VisualStudio.SolutionFile.Types/Code/Model/Classes/SolutionFile.cs:46 | the setter changes that property and nothing else |
| Model.SolutionFile.AddProjectReference | source/R5T.Code.VisualStudio.SolutionFile.Types/Code/Model/Classes/SolutionFile.cs:50 | `SolutionFileProjectReferences.Add` appends at the end; nothing else changes |
| Model.SolutionFile.AddGlobalSection | source/R5T.Code.VisualStudio.SolutionFile.Types/Code/Model/Classes/SolutionFile.cs:54 | `GlobalSections.Add` appends at the end; nothing else changes |
| Markers.QuotedMatches | source/R5T.Code.VisualStudio.SolutionFile.Types/Code/Model/IO/SolutionFileTextSerializer.cs:23 | every match of `"([^"]*)"` is a quote, quote-free text and a quote |
| Markers.ProjectLineValues | source/R5T.Code.VisualStudio.SolutionFile.Types/Code/Model/IO/SolutionFileTextSerializer.cs:192-197 | one value per match, value i being match i without its two quotes, none holding a quote |
| Markers.TrimQuotes | source/R5T.Code.VisualStudio.SolutionFile.Types/Code/Model/IO/SolutionFileTextSerializer.cs:194-197 | `Trim('"')` of a match is the text between its two quotes |
| Markers.QuotedValue | source/R5T.Code.VisualStudio.SolutionFile.Types/Code/Model/IO/SolutionFileTextSerializer.cs:194 | trimming quotes from both ends of a match removes exactly its two quotes |
| Markers.SectionName | source/R5T.Code.VisualStudio.SolutionFile.Types/Code/Model/IO/SolutionFileTextSerializer.cs:112 | the name left by `TrimStart('(').TrimEnd(')')` neither starts with `(` nor ends with `)` |
| Markers.NextSectionValue | source/R5T.Code.VisualStudio.SolutionFile.Types/Code/Model/IO/SolutionFileTextSerializer.cs:24 | a section-value match found lies inside the line, from the search position on |
| Grammar.VersionOf | source/R5T.Code.VisualStudio.SolutionFile.Types/Code/Model/IO/SolutionFileTextSerializer.cs:232-234 | a header version, when read, is one `Version.Parse` can produce |
| Grammar.ReadProject | source/R5T.Code.VisualStudio.SolutionFile.Types/Code/Model/IO/SolutionFileTextSerializer.cs:185-217 | a line not starting with `Project` is refused as an unexpected line. Reading succeeds exactly when the line has four quoted values whose first and fourth read as GUIDs and the next line starts with `EndProject`; the reference then holds the four values |
| Grammar.ProjectsLoop | source/R5T.Code.VisualStudio.SolutionFile.Types/Code/Model/IO/SolutionFileTextSerializer.cs:177-182 | the project loop, when it succeeds, stops on a line starting with `Global` at or after its start; a line that starts with neither `Global` nor `Project` is refused as an unexpected line |
| Grammar.ReadProjects | source/R5T.Code.VisualStudio.SolutionFile.Types/Code/Model/IO/SolutionFileTextSerializer.cs:170-183 | reading projects, when it succeeds, ends on a `Global` line |
| Grammar.GeneralLinesLoop | source/R5T.Code.VisualStudio.SolutionFile.Types/Code/Model/IO/SolutionFileTextSerializer.cs:158-165 | the general-section loop ends on an `EndGlobalSection` line and keeps name, scope and kind |
| Grammar.NestingsLoop | source/R5T.Code.VisualStudio.SolutionFile.Types/Code/Model/IO/SolutionFileTextSerializer.cs:137-145 | the nesting loop ends on an `EndGlobalSection` line and keeps name, scope and kind |
| Grammar.ReadSection | source/R5T.Code.VisualStudio.SolutionFile.Types/Code/Model/IO/SolutionFileTextSerializer.cs:103-127 | a section, when read, starts on a `GlobalSection` line and ends on an `EndGlobalSection` line after it |
| Grammar.SectionsLoop | source/R5T.Code.VisualStudio.SolutionFile.Types/Code/Model/IO/SolutionFileTextSerializer.cs:95-100 | the section loop stops only on a line matching `EndGlobal($\|\s)`; a line that is neither that nor a `GlobalSection` line is refused as an unexpected line |
| Grammar.TrimmedLines | source/R5T.Code.VisualStudio.SolutionFile.Types/Code/Model/IO/SolutionFileTextSerializer.cs:93-99 | inside `Global` every line is read trimmed |
| Grammar.ReadGlobals | source/R5T.Code.VisualStudio.SolutionFile.Types/Code/Model/IO/SolutionFileTextSerializer.cs:86-101 | the Global block, when read, ends on an `EndGlobal` line after the `Global` line |
| Grammar.ReadDocument | source/R5T.Code.VisualStudio.SolutionFile.Types/Code/Model/IO/SolutionFileTextSerializer.cs:222-258 | a read document ends on an `EndGlobal` line after the header; its format version, Visual Studio version and minimum version are `Version.Parse` of the last tokens of lines 2, 4 and 5, and its moniker is line 3 |
| Grammar.Parse | source/R5T.Code.VisualStudio.SolutionFile.Types/Code/Model/IO/SolutionFileTextSerializer.cs:222-268 | fewer than two lines is an end-of-input error; a text read has at least six lines, and the document holds the three versions and the moniker of its header lines |
| Grammar.ProjectsLines | source/R5T.Code.VisualStudio.SolutionFile.Types/Code/Model/IO/SolutionFileTextSerializer.cs:75-84 | the writer emits exactly a Project line and an EndProject line per reference, in list order |
| Grammar.Indented | source/R5T.Code.VisualStudio.SolutionFile.Types/Code/Model/IO/SolutionFileTextSerializer.cs:65-70 | content lines go out one for one, in order, one level deeper |
| Grammar.Write | source/R5T.Code.VisualStudio.SolutionFile.Types/Code/Model/IO/SolutionFileTextSerializer.cs:272-289 | writing fails exactly when the format version is not set |
| Grammar.Render | source/R5T.Code.VisualStudio.SolutionFile.Types/Code/Model/IO/SolutionFileTextSerializer.cs:39-72 | each written line becomes one text line: depth tabs, then the text |
| RoundTrip.ProjectLineMatches | source/R5T.Code.VisualStudio.SolutionFile.Types/Code/Model/IO/SolutionFileTextSerializer.cs:79 | a written Project line has exactly four quoted matches, its four quoted fields |
| RoundTrip.ProjectLineValuesOf | source/R5T.Code.VisualStudio.SolutionFile.Types/Code/Model/IO/SolutionFileTextSerializer.cs:192-197 | the values read from a written Project line are its type GUID text, name, path and GUID text |
| RoundTrip.ProjectRead | source/R5T.Code.VisualStudio.SolutionFile.Types/Code/Model/IO/SolutionFileTextSerializer.cs:185-217 | a written Project/EndProject pair reads back as the same reference and is not a `Global` line |
| RoundTrip.ProjectsRoundTrip | source/R5T.Code.VisualStudio.SolutionFile.Types/Code/Model/IO/SolutionFileTextSerializer.cs:177-182 | the project loop over written pairs appends the references in order and stops two lines per reference later |
| RoundTrip.WrittenProjects | source/R5T.Code.VisualStudio.SolutionFile.Types/Code/Model/IO/SolutionFileTextSerializer.cs:75-84 | written project lines followed by `Global` are read one reference per pair |
| RoundTrip.GlobalIsNotProject | source/R5T.Code.VisualStudio.SolutionFile.Types/Code/Model/IO/SolutionFileTextSerializer.cs:16-18 | a line starting with `Global` never starts with `Project` |
| RoundTrip.GlobalSectionIsNotEndGlobal | source/R5T.Code.VisualStudio.SolutionFile.Types/Code/Model/IO/SolutionFileTextSerializer.cs:19-20 | a `GlobalSection` line never matches `EndGlobal($\|\s)` |
| RoundTrip.HeaderValues | source/R5T.Code.VisualStudio.SolutionFile.Types/Code/Model/IO/SolutionFileTextSerializer.cs:24 | in `GlobalSection(name) = scope` the two matches are `(name)` and the scope |
| RoundTrip.SectionHeaderValues | source/R5T.Code.VisualStudio.SolutionFile.Types/Code/Model/IO/SolutionFileTextSerializer.cs:62 | the written section header yields `(name)` and the scope's standard text |
| RoundTrip.SectionNameOf | source/R5T.Code.VisualStudio.SolutionFile.Types/Code/Model/IO/SolutionFileTextSerializer.cs:112 | stripping the parentheses from `(name)` gives the name back |
| RoundTrip.SectionHeaderRead | source/R5T.Code.VisualStudio.SolutionFile.Types/Code/Model/IO/SolutionFileTextSerializer.cs:105-115 | a written section header is trimmed and reads back as its own name and scope |
| RoundTrip.TrimIndented | source/R5T.Code.VisualStudio.SolutionFile.Types/Code/Model/IO/SolutionFileTextSerializer.cs:99 | `Trim` removes the writer's indentation from a trimmed text |
| RoundTrip.NestingLineRead | source/R5T.Code.VisualStudio.SolutionFile.Types/Code/Model/IO/SolutionFileTextSerializer.cs:139-141 | a written nesting line does not close the section and deserializes to its nesting |
| RoundTrip.GeneralLinesRoundTrip | source/R5T.Code.VisualStudio.SolutionFile.Types/Code/Model/IO/SolutionFileTextSerializer.cs:158-165 | the general-section loop reads written content lines back, in order, up to EndGlobalSection |
| RoundTrip.NestingsRoundTrip | source/R5T.Code.VisualStudio.SolutionFile.Types/Code/Model/IO/SolutionFileTextSerializer.cs:137-145 | the nesting loop reads written nesting lines back, in order, up to EndGlobalSection |
| RoundTrip.ReadSectionAt | source/R5T.Code.VisualStudio.SolutionFile.Types/Code/Model/IO/SolutionFileTextSerializer.cs:103-127 | a readable section is read as itself, ending on its EndGlobalSection line |
| RoundTrip.WrittenGeneralSection | source/R5T.Code.VisualStudio.SolutionFile.Types/Code/Model/IO/SolutionFileTextSerializer.cs:150-168 | a written general section is readable as itself |
| RoundTrip.WrittenNestedSection | source/R5T.Code.VisualStudio.SolutionFile.Types/Code/Model/IO/SolutionFileTextSerializer.cs:129-148 | a written NestedProjects section is readable as itself |
| RoundTrip.WrittenSectionReadable | source/R5T.Code.VisualStudio.SolutionFile.Types/Code/Model/IO/SolutionFileTextSerializer.cs:60-73 | every written well-formed section is readable and its header does not close `Global` |
| RoundTrip.SectionsRoundTrip | source/R5T.Code.VisualStudio.SolutionFile.Types/Code/Model/IO/SolutionFileTextSerializer.cs:95-100 | the section loop over readable sections appends them in order and stops at the end of the last one |
| RoundTrip.WrittenSections | source/R5T.Code.VisualStudio.SolutionFile.Types/Code/Model/IO/SolutionFileTextSerializer.cs:44-57 | written sections followed by `EndGlobal` are readable one by one |
| RoundTrip.GlobalsTrimmed | source/R5T.Code.VisualStudio.SolutionFile.Types/Code/Model/IO/SolutionFileTextSerializer.cs:37-58 | the rendered Global block starts with `Global`, and read trimmed it is the section texts then `EndGlobal` |
| RoundTrip.GlobalsRoundTrip | source/R5T.Code.VisualStudio.SolutionFile.Types/Code/Model/IO/SolutionFileTextSerializer.cs:86-101 | a written Global block reads back as the same sections, ending on its EndGlobal line |
| RoundTrip.HeaderRead | source/R5T.Code.VisualStudio.SolutionFile.Types/Code/Model/IO/SolutionFileTextSerializer.cs:226-244 | the written header reads back: format version as major.minor, the moniker verbatim, both Visual Studio versions exactly |
| RoundTrip.WrittenLayout | source/R5T.Code.VisualStudio.SolutionFile.Types/Code/Model/IO/SolutionFileTextSerializer.cs:272-289 | a written document is laid out as five header lines, two lines per project, then the Global block |
| RoundTrip.ProjectsPartRead | source/R5T.Code.VisualStudio.SolutionFile.Types/Code/Model/IO/SolutionFileTextSerializer.cs:246-251 | after the header, the written projects are read back, or none when the sixth line is `Global` |
| RoundTrip.GlobalPartRead | source/R5T.Code.VisualStudio.SolutionFile.Types/Code/Model/IO/SolutionFileTextSerializer.cs:253-258 | after the projects comes a `Global` line and the sections read back |
| RoundTrip.ReadDocumentOf | source/R5T.Code.VisualStudio.SolutionFile.Types/Code/Model/IO/SolutionFileTextSerializer.cs:222-258 | the document read is assembled from the results of its steps |
| RoundTrip.LaidOutRead | source/R5T.Code.VisualStudio.SolutionFile.Types/Code/Model/IO/SolutionFileTextSerializer.cs:222-268 | text laid out as the writer lays it out reads back as the document, ending on its last line |
| RoundTrip.WriteThenParse | source/R5T.Code.VisualStudio.SolutionFile.Types/Code/Model/IO/SolutionFileTextSerializer.cs:222-289 | reading what `Serialize` wrote gives the document back, the format version cut to major.minor, for every document with its header set, single-line texts, and quote-free names and paths |
| Reading.ProjectsLoopLayout | source/R5T.Code.VisualStudio.SolutionFile.Types/Code/Model/IO/SolutionFileTextSerializer.cs:177-182 | the project loop keeps the references before it and reads reference j from the Project line two lines per reference on; it stops two lines per reference later |
| Reading.ParsedLayout | source/R5T.Code.VisualStudio.SolutionFile.Types/Code/Model/IO/SolutionFileTextSerializer.cs:222-258 | in every accepted text reference j was read from line 5 + 2j. The line after the last pair starts with `Global`, the line after that, trimmed, is a `GlobalSection` or `EndGlobal` line, and the sections are those the section loop reads from there |
| Reading.ProjectsRead | source/R5T.Code.VisualStudio.SolutionFile.Types/Code/Model/IO/SolutionFileTextSerializer.cs:170-183 | projects read from the sixth line: reference j from line 5 + 2j, and the loop ends two lines per reference on |
| Reading.DocumentParts | source/R5T.Code.VisualStudio.SolutionFile.Types/Code/Model/IO/SolutionFileTextSerializer.cs:246-258 | the document read holds the projects read from the sixth line when it is a Project line (none otherwise) and the sections read after the `Global` line that follows |
| Reading.ProjectIsNotGlobal | source/R5T.Code.VisualStudio.SolutionFile.Types/Code/Model/IO/SolutionFileTextSerializer.cs:16-18 | a line starting with `Project` never starts with `Global` |
| Reading.ProjectsLoopStops | source/R5T.Code.VisualStudio.SolutionFile.Types/Code/Model/IO/SolutionFileTextSerializer.cs:177-217 | over a run of Project lines, a line that is no `Global` line and either is no Project line or lacks its `EndProject` line makes the loop fail |
| Reading.ProjectsLoopReaches | source/R5T.Code.VisualStudio.SolutionFile.Types/Code/Model/IO/SolutionFileTextSerializer.cs:177-182 | over a run of Project lines up to a `Global` line, the loop, when it succeeds, stops at that line |
| Reading.ProjectsFailureIsFailure | source/R5T.Code.VisualStudio.SolutionFile.Types/Code/Model/IO/SolutionFileTextSerializer.cs:248-251 | projects from the sixth line that cannot be read make the whole text unreadable |
| Reading.MissingEndProject | source/R5T.Code.VisualStudio.SolutionFile.Types/Code/Model/IO/SolutionFileTextSerializer.cs:212-216 | a Project line (the sixth, or one after Project/EndProject pairs) not followed by an `EndProject` line: `Parse` fails |
| Reading.StrayLineAmongProjects | source/R5T.Code.VisualStudio.SolutionFile.Types/Code/Model/IO/SolutionFileTextSerializer.cs:177-190 | where a Project or Global line is due, a line that starts with neither: `Parse` fails |
| Reading.StrayLineInGlobal | source/R5T.Code.VisualStudio.SolutionFile.Types/Code/Model/IO/SolutionFileTextSerializer.cs:93-106 | after the `Global` line, a trimmed line that is neither a `GlobalSection` nor an `EndGlobal` line: `Parse` fails |
| Reading.QuotedMatchesSingleLine | source/R5T.Code.VisualStudio.SolutionFile.Types/Code/Model/IO/SolutionFileTextSerializer.cs:192 | every quoted match in a text without line breaks has none |
| Reading.ReadProjectWellFormed | source/R5T.Code.VisualStudio.SolutionFile.Types/Code/Model/IO/SolutionFileTextSerializer.cs:192-197 | a reference read from a line without line breaks has a name and path without line breaks or quotes |
| Reading.SectionValuesSingleLine | source/R5T.Code.VisualStudio.SolutionFile.Types/Code/Model/IO/SolutionFileTextSerializer.cs:110 | the name match of a header line without line breaks has none |
| Reading.GeneralLinesLoopReadable | source/R5T.Code.VisualStudio.SolutionFile.Types/Code/Model/IO/SolutionFileTextSerializer.cs:158-163 | the general-section loop over trimmed single lines keeps only trimmed single lines that are no `EndGlobalSection` line |
| Reading.ReadSectionWellFormed | source/R5T.Code.VisualStudio.SolutionFile.Types/Code/Model/IO/SolutionFileTextSerializer.cs:103-127 | a section read from trimmed single lines is well formed |
| Reading.SectionsLoopWellFormed | source/R5T.Code.VisualStudio.SolutionFile.Types/Code/Model/IO/SolutionFileTextSerializer.cs:95-100 | every section the section loop reads from trimmed single lines is well formed |
| Reading.ParsedReferencesWellFormed | source/R5T.Code.VisualStudio.SolutionFile.Types/Code/Model/IO/SolutionFileTextSerializer.cs:177-217 | the references read from single lines are well formed |
| Reading.ParsedSectionsWellFormed | source/R5T.Code.VisualStudio.SolutionFile.Types/Code/Model/IO/SolutionFileTextSerializer.cs:86-101 | the sections read from single lines are well formed |
| Reading.ParsedWellFormed | source/R5T.Code.VisualStudio.SolutionFile.Types/Code/Model/IO/SolutionFileTextSerializer.cs:222-268 | every document read from lines without line breaks is well formed |
| Reading.ParseWriteParse | source/R5T.Code.VisualStudio.SolutionFile.Types/Code/Model/IO/SolutionFileTextSerializer.cs:222-289 | a document read from lines without line breaks is written and read back as itself, the format version cut to major.minor |
| TextIO.LineReader.ReadLine | source/R5T.Code.VisualStudio.SolutionFile.Types/Code/Model/IO/SolutionFileTextSerializer.cs:226-230 | the next line and one step forward, or null at the end with nothing consumed |
| TextIO.LineReader.ReadToEnd | source/R5T.Code.VisualStudio.SolutionFile.Types/Code/Model/IO/SolutionFileTextSerializer.cs:262 | every line not yet read, after which the reader is at its end |
| TextIO.Output.WriteLine | source/R5T.Code.VisualStudio.SolutionFile.Types/Code/Model/IO/SolutionFileTextSerializer.cs:274-282 | one unindented line appended |
| TextIO.TabinatedWriter.constructor | source/R5T.Code.VisualStudio.SolutionFile.Types/Code/Model/IO/SolutionFileTextSerializer.cs:39 | a new writer over the text writer starts at depth zero |
| TextIO.TabinatedWriter.WriteLine | source/R5T.Code.VisualStudio.SolutionFile.Types/Code/Model/IO/SolutionFileTextSerializer.cs:41 | one line appended at the current depth |
| TextIO.TabinatedWriter.IncreaseTabination | source/R5T.Code.VisualStudio.SolutionFile.Types/Code/Model/IO/SolutionFileTextSerializer.cs:43 | depth goes up by one |
| TextIO.TabinatedWriter.DecreaseTabination | source/R5T.Code.VisualStudio.SolutionFile.Types/Code/Model/IO/SolutionFileTextSerializer.cs:55 | depth goes down by one |
| Serializer.ProjectsLinesAppend | source/R5T.Code.VisualStudio.SolutionFile.Types/Code/Model/IO/SolutionFileTextSerializer.cs:77-83 | one more reference adds exactly its Project and EndProject lines at the end |
| Serializer.SectionsLinesAppend | source/R5T.Code.VisualStudio.SolutionFile.Types/Code/Model/IO/SolutionFileTextSerializer.cs:44-54 | one more section adds exactly its lines at the end |
| Serializer.SerializeProjectReferences | source/R5T.Code.VisualStudio.SolutionFile.Types/Code/Model/IO/SolutionFileTextSerializer.cs:75-84 | the loop appends exactly the project lines of the list, in order |
| Serializer.SerializeGlobal | source/R5T.Code.VisualStudio.SolutionFile.Types/Code/Model/IO/SolutionFileTextSerializer.cs:60-73 | header at the current depth, content one deeper, EndGlobalSection; the depth is as before |
| Serializer.SerializeGlobals | source/R5T.Code.VisualStudio.SolutionFile.Types/Code/Model/IO/SolutionFileTextSerializer.cs:37-58 | `Global`, every section at depth one, `EndGlobal` |
| Serializer.Serialize | source/R5T.Code.VisualStudio.SolutionFile.Types/Code/Model/IO/SolutionFileTextSerializer.cs:272-289 | appends exactly `Write` of the document; without a format version, only the blank line and then the error |
| Serializer.DeserializeProject | source/R5T.Code.VisualStudio.SolutionFile.Types/Code/Model/IO/SolutionFileTextSerializer.cs:185-217 | outcome as `ReadProject`: the reference appended and the EndProject line current, or the same error |
| Serializer.DeserializeProjects | source/R5T.Code.VisualStudio.SolutionFile.Types/Code/Model/IO/SolutionFileTextSerializer.cs:170-183 | outcome as `ReadProjects`: the references appended in order and the `Global` line current, or the same error |
| Serializer.DeserializeGeneralGlobal | source/R5T.Code.VisualStudio.SolutionFile.Types/Code/Model/IO/SolutionFileTextSerializer.cs:150-168 | outcome as the general-section loop on the trimmed lines |
| Serializer.DeserializeNestedProjectsGlobalSection | source/R5T.Code.VisualStudio.SolutionFile.Types/Code/Model/IO/SolutionFileTextSerializer.cs:129-148 | outcome as the nesting loop on the trimmed lines |
| Serializer.DeserializeGlobal | source/R5T.Code.VisualStudio.SolutionFile.Types/Code/Model/IO/SolutionFileTextSerializer.cs:103-127 | outcome as `ReadSection`: the section appended and its EndGlobalSection line current, or the same error |
| Serializer.DeserializeGlobals | source/R5T.Code.VisualStudio.SolutionFile.Types/Code/Model/IO/SolutionFileTextSerializer.cs:86-101 | outcome as `ReadGlobals`: the sections appended in order and the EndGlobal line current, or the same error |
| Serializer.HeaderVersions | source/R5T.Code.VisualStudio.SolutionFile.Types/Code/Model/IO/SolutionFileTextSerializer.cs:226-246 | a header that reads gives the versions of lines 2, 4 and 5, and a sixth line exists |
| Serializer.HeaderFailure | source/R5T.Code.VisualStudio.SolutionFile.Types/Code/Model/IO/SolutionFileTextSerializer.cs:226-246 | an unreadable header is the error of the whole read |
| Serializer.ProjectsFailure | source/R5T.Code.VisualStudio.SolutionFile.Types/Code/Model/IO/SolutionFileTextSerializer.cs:248-251 | projects that cannot be read are the error of the whole read |
| Serializer.AfterProjects | source/R5T.Code.VisualStudio.SolutionFile.Types/Code/Model/IO/SolutionFileTextSerializer.cs:253-267 | after header and projects: no `Global` line, an unreadable Global block, more than one line after `EndGlobal`, or the document |
| Serializer.DeserializeContent | source/R5T.Code.VisualStudio.SolutionFile.Types/Code/Model/IO/SolutionFileTextSerializer.cs:246-267 | from the sixth line on, the outcome is what `Parse` says of the whole text |
| Serializer.Deserialize | source/R5T.Code.VisualStudio.SolutionFile.Types/Code/Model/IO/SolutionFileTextSerializer.cs:222-268 | a new solution file whose value is `Parse` of the text, or exactly `Parse`'s error |
| Extensions.Named | source/R5T.Code.VisualStudio.SolutionFile.Types/Code/Model/Extensions/SolutionFileExtensions.cs:13 | `Where` keeps exactly the references with the name |
| Extensions.NamedMoreThanOne | source/R5T.Code.VisualStudio.SolutionFile.Types/Code/Model/Extensions/SolutionFileExtensions.cs:13 | more than one match exactly when references at two different positions have the name |
| Extensions.TwiceNamedMatches | source/R5T.Code.VisualStudio.SolutionFile.Types/Code/Model/Extensions/SolutionFileExtensions.cs:13 | two places holding the name give more than one match |
| Extensions.MatchesNamedTwice | source/R5T.Code.VisualStudio.SolutionFile.Types/Code/Model/Extensions/SolutionFileExtensions.cs:13 | more than one match means two places in the list hold the name |
| Extensions.SingleOrDefault | source/R5T.Code.VisualStudio.SolutionFile.Types/Code/Model/Extensions/SolutionFileExtensions.cs:13 | null for no match, the match for one, an error for more |
| Extensions.DependenciesSolutionFolderOf | source/R5T.Code.VisualStudio.SolutionFile.Types/Code/Model/Extensions/SolutionFileExtensions.cs:13 | the folder found is in the list and named Dependencies; null exactly when none is; an error exactly when references at two different positions are |
| Extensions.HasDependenciesSolutionFolderWithFolder | source/R5T.Code.VisualStudio.SolutionFile.Types/Code/Model/Extensions/SolutionFileExtensions.cs:11-17 | as written: true exactly when no reference is named Dependencies, which is when the out value is null |
| Extensions.HasDependenciesSolutionFolder | source/R5T.Code.VisualStudio.SolutionFile.Types/Code/Model/Extensions/SolutionFileExtensions.cs:19-23 | the same answer as the out overload |
| Extensions.GetDependenciesSolutionFolder | source/R5T.Code.VisualStudio.SolutionFile.Types/Code/Model/Extensions/SolutionFileExtensions.cs:25-34 | as written: succeeds exactly when no folder exists, and then returns null |
| Extensions.AddDependenciesSolutionFolder | source/R5T.Code.VisualStudio.SolutionFile.Types/Code/Model/Extensions/SolutionFileExtensions.cs:36-49 | appends one solution folder named Dependencies with the new GUID, returns it, nothing else changes |
| Extensions.NamedAppend | source/R5T.Code.VisualStudio.SolutionFile.Types/Code/Model/Extensions/SolutionFileExtensions.cs:13 | an appended reference joins the matches at the end exactly when it has the name |
| Extensions.NamedNone | source/R5T.Code.VisualStudio.SolutionFile.Types/Code/Model/Extensions/SolutionFileExtensions.cs:13 | with no reference of that name there is no match |
| Extensions.AddedFolderFound | source/R5T.Code.VisualStudio.SolutionFile.Types/Code/Model/Extensions/SolutionFileExtensions.cs:36-49 | adding the folder to a list without one makes the lookup find exactly it |
| Extensions.AddedTwiceLookupFails | source/R5T.Code.VisualStudio.SolutionFile.Types/Code/Model/Extensions/SolutionFileExtensions.cs:36-49 | adding the folder twice makes the lookup, Has and Get all fail |
| Extensions.AddedFolderNotReported | source/R5T.Code.VisualStudio.SolutionFile.Types/Code/Model/Extensions/SolutionFileExtensions.cs:15 | as written, after adding the folder Has answers false and Get fails |
| Extensions.HasDependenciesSolutionFolderCorrected | source/R5T.Code.VisualStudio.SolutionFile.Types/Code/Model/Extensions/SolutionFileExtensions.cs:11-17 | corrected: true exactly when a reference is named Dependencies, which is when the out value is the folder |
| Extensions.GetDependenciesSolutionFolderCorrected | source/R5T.Code.VisualStudio.SolutionFile.Types/Code/Model/Extensions/SolutionFileExtensions.cs:25-34 | corrected: the folder, which is in the list, or the error exactly when none exists |
| Extensions.AddedFolderReported | source/R5T.Code.VisualStudio.SolutionFile.Types/Code/Model/Extensions/SolutionFileExtensions.cs:36-49 | corrected: after adding the folder, Has answers true and Get returns the added folder |

## Left out

- Line breaks inside texts: a moniker, name, path or content line holding a line break would be written as several lines. The model takes the text as a list of lines, so `RoundTrip.WellFormed` requires every such text to be a single line. Every document read from lines is one (`Reading.ParsedWellFormed`).
- References and sections are values. In the source they are shared objects, and `AddDependenciesSolutionFolder` returns the very object it appended. The model returns an equal value, so object identity, and changes made later through that object, are not modelled.
- Guids.ParseGuid: refuses the X form (`{0x…,0x…,…,{0x…,…}}`). It also refuses the `0x`, `+` and `+0x` prefixes that `Guid.Parse` tolerates at the start of a group for compatibility, within the group's length.
- Versions.ParseVersion: refuses the trailing NUL characters that `Int32.Parse` tolerates after a number.
- Sections that do not implement the serializable interface (the `IOException` of `SerializeGlobals`): the model's `GlobalSection` has only the two serializable kinds, so that error path cannot arise.
- `SolutionFile.Load` and `Save` and `SolutionFileSerializer`: file streams and byte-order-mark handling. The model reads from and writes to lists of lines.
- `Guid.NewGuid()` in `AddDependenciesSolutionFolder`: it is nondeterministic, so the new GUID is a parameter.
- `Constants` is not part of this model. The folder name `Dependencies` and the solution-folder type GUID `{2150E333-8FDC-42A3-9474-1A3956D46DE8}` are the conventional values. No proved property depends on them beyond the name being the one the lookup searches for.
- `TabinatedWriter` and `ProjectNesting` are not part of this model. Indentation is kept as a depth in each written line, and `Render` puts that many tabs in front of the line. The nesting line format is the conventional `{child} = {parent}`.
- Regex matches after the ones the code uses: only the first four quoted matches of a Project line and the first two section-header matches are ever read, so only those are computed.
- Exception message texts: errors are a `ParseError`, `WriteError` or `LookupError` value naming the expected marker and the line found.
- TextIO.TabinatedWriter.DecreaseTabination: requires a depth above zero, because the serializer only decreases after increasing.
- RoundTrip.WriteThenParse: states the round trip with the format version cut to major.minor, because the writer writes only `Major.Minor:00` on that line.

## Findings

| source | as written | input that shows it | evidently intended | confidence | as-written member | corrected member |
|---|---|---|---|---|---|---|
| source/R5T.Code.VisualStudio.SolutionFile.Types/Code/Model/Extensions/SolutionFileExtensions.cs:15 | `HasDependenciesSolutionFolder` returns `folder == default`: true when no reference is named Dependencies. `GetDependenciesSolutionFolder` therefore throws when the folder exists and returns null when it does not | any list without a Dependencies folder, after `AddDependenciesSolutionFolder`: Has answers false and Get throws | true exactly when the folder exists; Get returns it | not executed | Extensions.AddedFolderNotReported | Extensions.AddedFolderReported |

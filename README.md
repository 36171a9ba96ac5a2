# FIASParse loader: a Dafny model

FIASParse loads the monthly XML extracts of the Russian address register
(FIAS) into PostgreSQL. Each extract is one XML file per table. The file's
name says which table it is, e.g. `AS_ADDROBJ_20180101_<guid>.XML`. This
project models the core of that loader in `main.go`:

- **Classification** (`classifier.dfy`, main.go:29-49 and 637-725). There are 21
  anchored patterns `^(AS_<TAG>_)[0-9]{8}_.+`. The `switch` in `main` picks
  the first one that matches the file name. Proved: at most one pattern can
  match any name, so the order of the cases never matters. The switch picks
  case `t` exactly when pattern `t` matches. Names built from a tag, an
  eight-digit date and a suffix are classified back to their tag.
- **Dispatch** (`dispatch.dfy`, main.go:637-725). Each tag has a case: a
  target table, an XML element name and a record struct. Unmatched files are
  skipped. Every matched file is handed to `Parse`, one after the other,
  against the same database. Proved: the 21 target tables are distinct. The
  element name is the struct's name in every case except CURENTST and
  NORMDOC.
- **Record structs as column data** (`records.dfy`, main.go:88-327). Each
  struct is its list of fields: the Go name, the XML attribute name and the
  kind of value. Column names are the lower-cased Go field names
  (main.go:500-507). A row maps each column to the value of the field.
- **Decoding one element** (`xml.dfy`). This models what
  `decoder.DecodeElement` does to the record at main.go:530. Every attribute
  whose name a field declares is coerced to the field's kind and stored in
  it. Attributes are applied in order, so the last one with a given name
  wins. A value that cannot be coerced is an error. The rest of the element
  is skipped up to its matching end tag.
- **`Parse`** (`loader.dfy`, main.go:451-579). This covers:
  - the choice between loading in place (TRUNCATE) and through a shadow
    table `temp_<table>` for files above 20388921 bytes;
  - the token loop, which sends a bulk insert for every 5000 rows;
  - the final flush and the swap (DROP of the real table, then RENAME of
    the shadow);
  - the deferred DROP of the shadow.

  `Parse` is modelled three times: as the imperative method `Loader.Parse`
  over a `Store.Database`; as the statement-by-statement function
  `LoadLoop`; and as the batch-level specification `ParseSpec` (extract
  rows, plan the statements, execute them). The method is proved equal to
  the specification.
- **The database** (`store.dfy`). Tables are a map from name to rows. Each
  SQL statement is atomic: it either applies in full or fails and leaves the
  tables unchanged. A statement fails for a semantic reason (a CREATE of an
  existing table, a TRUNCATE of a missing one, and so on) or because its
  number in the session is in a fault schedule `faults`. The schedule stands
  in for everything the server can refuse.
- **What a load guarantees** (`guarantees.dfy`). A load in place changes only
  its own table. That table then holds a prefix of the rows read, all of
  them when no error is returned, and a multiple of 5000 rows after an
  error. A load through a shadow table leaves the database, apart from the
  shadow itself, either exactly as it was or with the table replaced by
  every row read, and in the second case no error is returned. The shadow
  survives only when the deferred DROP itself fails.

### Notable behaviour of the code

- **The shared record is never reset.** Every element is decoded into the
  same struct (main.go:530), allocated once by `new(T)` in `main`
  (main.go:641 and the other cases). An attribute missing from one element
  therefore keeps the value of the previous element that had it; only
  before the first element is every field at its zero value. `Extract`
  threads the record through the loop, and `Xml.AssignAttrsValues` states
  exactly which field keeps its old value.
- **A bad attribute value is an error, not a zero.** `DecodeElement` fails
  when an attribute cannot be converted to its field's type, and `Parse`
  returns that error (main.go:530-534). The model gives `DecodeFailed`
  (`Xml.DecodeElementFails`).
- **The final insert and the swap happen only when rows are left over.**
  Both sit inside `if len(arguments) > 0` (main.go:556-574). When the
  number of rows read is a multiple of 5000, zero included, a large file is
  loaded into the shadow table, the swap is never issued and the deferred
  DROP (main.go:487) discards the shadow, while `Parse` returns no error.
  `Guarantees.ShadowNoFaults` states this: with no faults, the tables after
  the load are `t[table := rows]` if `|rows| % 5000 != 0`, and `t`
  unchanged otherwise. `Guarantees.PlanBatches` states the same rule for
  the statements sent.
- **CURENTST and NORMDOC cases.** CURENTST decodes `CurrentStatus` elements
  into the `CenterStatus` struct (main.go:651-654). NORMDOC decodes
  `NormativeDocument` elements into the `NormativeDocumentType` struct
  (main.go:699-702). These pairings are kept as written.
- **`Parse` returns nil after a successful load.** The final `return err`
  (main.go:578) returns the outer `err`, last set by `sql.Open`
  (main.go:467) or, on the shadow path, by the CREATE (main.go:482). Every
  later `err` in the loop and the flush (main.go:530, 548, 557, 564) is a
  new variable, so the outer one is nil on every path that reaches line
  578. `main` ignores the result anyway (main.go:642 and the other cases).

## Model

| member | source | states |
|---|---|---|
| Classifier.FirstMatch | main.go:638-724 | the case the switch takes: a tag of the order whose pattern matches, or none when no pattern of the order matches |
| Classifier.Classify | main.go:638-724 | the switch itself: the first pattern, in case order, that matches the name (no contract of its own; what it picks is stated by ClassifyIff and ClassifyNoneIff) |
| Classifier.PrefixHasNoDigit | main.go:29-49 | each pattern's literal part is at least `AS_` plus one character, with no digit after `AS_` |
| Classifier.LiteralHasNoDigit | main.go:29-49 | no tag literal contains a digit |
| Classifier.TagOfLiteral | main.go:29-49 | each pattern's tag literal identifies its pattern, so the 21 literals are distinct |
| Classifier.AllTagsInSwitch | main.go:638-722 | every pattern has a case in the switch |
| Classifier.ShorterPrefixMeetsDigit | main.go:29-49 | when two literal parts of different length both match a name, the longer one has a digit at the shorter one's length (where the name's date starts) |
| Classifier.MatchingPrefixesEqual | main.go:29-49 | two patterns that match the same name have the same literal part |
| Classifier.MatchesUnique | main.go:29-49 | no file name matches two patterns |
| Classifier.FirstMatchIsTheMatch | main.go:638-724 | in any order containing `t`, the first match is `t` iff pattern `t` matches, so the order of the cases is irrelevant |
| Classifier.ClassifyIff | main.go:638-722 | the switch takes case `t` iff pattern `t` matches the name |
| Classifier.ClassifyNoneIff | main.go:723-724 | the default branch is taken iff no pattern matches |
| Classifier.MatchesBuiltName | main.go:29-49 | `AS_<TAG>_` + eight digits + `_` + a suffix not starting with a newline matches pattern TAG |
| Classifier.MatchedNameSplits | main.go:29-49 | conversely, every name matching a pattern splits into its literal part, eight digits, `_` and a non-empty suffix |
| Classifier.ClassifyMakeName | main.go:637-722 | a name built from a tag, a date and a suffix is classified as that tag |
| Classifier.ClassifiedNameParts | main.go:637-722 | a classified name is the name built from its tag, its date digits and its suffix |
| Records.ToLower | main.go:506 | the column name has the field name's length, and each character is lower-cased |
| Records.ToLowerIsLower | main.go:506 | a column name holds no upper-case letter, and lower-casing it again changes nothing |
| Records.Fields | main.go:88-327 | the 17 record structs: each one's fields in declaration order, with the attribute name of its `xml` tag and its Go kind (no contract of its own) |
| Records.ColumnsOf | main.go:500-507 | one column per struct field (its contract states the count; each column is the field's name lower-cased, in declaration order, by definition) |
| Records.ColumnNames | main.go:500-507 | the fresh column array holds one lower-cased name per struct field, in field order |
| Records.RowOf | main.go:535-539 | a row's keys are exactly the column names |
| Records.RowOfAt | main.go:535-539 | a row maps each column to its field's value, for any column not repeated later |
| Records.BuildRow | main.go:535-539 | the loop builds exactly the row of the record |
| Xml.AssignFromValues | main.go:530 | one attribute succeeds iff every field declaring its name accepts its value; those fields get the coerced value and all others keep theirs |
| Xml.AssignAttrs | main.go:530 | the attributes of the start tag assigned to the shared record in document order; a refused value fails the decode (stated by AssignAttrsValues and AssignAttrsFails) |
| Xml.AssignAttrsValues | main.go:530 | after decoding, each field holds the coerced value of the last attribute with its name, or keeps its previous value when no attribute names it |
| Xml.AssignAttrsFails | main.go:530-534 | decoding fails iff some attribute's value is refused by a field declaring its name |
| Xml.SkipLength | main.go:530 | the decoder's skip ends on an end tag inside the stream |
| Xml.SkipLengthBalanced | main.go:530 | the skip stops exactly where the element's nesting closes, and passes no end of stream |
| Xml.SkipLengthCloses | main.go:530 | any stretch free of nil tokens that closes the open elements makes the skip succeed |
| Xml.SkipLengthNoneIff | main.go:530-534 | the skip fails iff the stream ends, or a nil token comes, before the open elements are closed |
| Xml.DecodeElement | main.go:530-534 | a decoded record has the struct's fields, and at least one token is consumed without passing the end of the stream |
| Xml.DecodeElementFails | main.go:530-534 | decoding fails iff some attribute's value is refused by a field tagged with its name, or the element is not closed before the stream ends or breaks |
| Store.ExecuteAppend | main.go:476-574 | statements sent in sequence stop at the first failure: running `p + q` is running `p`, then `q` only if `p` did not fail |
| Store.Apply | main.go:476-572 | what each statement does to the tables (CREATE ... LIKE, TRUNCATE, INSERT, DROP, DROP then RENAME) and when the server refuses it (no contract of its own; its frame is stated by ExecuteFrame) |
| Store.Execute | main.go:476-574 | statements sent in order until the first failure (no contract of its own; stated by ExecuteAppend and ExecuteIssued) |
| Store.ExecuteIssued | main.go:476-574 | the statements sent are a prefix of the plan; all of it without a failure, with the failed one last otherwise |
| Store.ExecuteFrame | main.go:476-574 | a table no statement of the plan names is neither created, removed nor changed |
| Store.Database.constructor | main.go:467-474 | a session starts with the given tables, an empty log and its fault schedule |
| Store.Database.Exec | main.go:482-564 | a statement is logged; the tables change exactly as it says if it succeeds and stay unchanged if it fails |
| Loader.Batches | main.go:547-553 | every full batch holds exactly 5000 rows |
| Loader.BatchesCover | main.go:547-561 | the batches followed by the remainder are the rows read; there are N / 5000 of them and the remainder has N % 5000 rows |
| Loader.FinalFlush | main.go:556-574 | the statements after the loop: the final insert and, on the shadow path, the swap, only when rows are left over (stated by Guarantees.PlanBatches) |
| Loader.Plan | main.go:547-574 | every statement a load sends after its setup when none fails (stated by Guarantees.PlanBatches) |
| Loader.Extract | main.go:516-541 | the rows the token loop produces and whether it stopped at a decode error (stated by Guarantees.ExtractSkipsOthers, ExtractElement, ExtractCount and ExtractRowKeys) |
| Loader.Flush | main.go:556-574 | the flush after the loop, statement by statement (related to the plan by FlushIsPlan) |
| Loader.LoadLoop | main.go:516-574 | the token loop, statement by statement (related to the plan by LoadLoopIsLoadSpec) |
| Loader.ParseSpec | main.go:451-579 | `Parse` at batch level: open, CREATE or TRUNCATE, the batch plan run to the first failure, the deferred DROP (Loader.Parse is proved to follow it; its outcomes are stated by Guarantees.InPlaceGuarantee and ShadowGuarantee) |
| Loader.FlushIsPlan | main.go:556-574 | the final flush of fewer than 5000 buffered rows is the load of those rows |
| Loader.FullBatchPlan | main.go:547-553 | a full batch at the head of the rows puts its insert at the head of the plan |
| Loader.FullBatchSpec | main.go:547-553 | sending a full batch either fails with InsertFailed or continues with the load of the rest |
| Loader.LoadLoopIsLoadSpec | main.go:516-574 | the token loop, statement by statement, equals extracting all rows and then sending the batch plan until the first failure |
| Loader.SendBatch | main.go:547-553 | the 5000th buffered row sends one insert; on failure the load ends with InsertFailed, else it continues with an empty buffer |
| Loader.FlushBuffer | main.go:556-574 | the flush after the loop sends the final insert and, on the shadow path, the swap, and returns the error of the one that fails |
| Loader.Load | main.go:509-574 | the token loop leaves the tables, the statements sent and the error as the statement-by-statement specification says |
| Loader.ShadowParseSpec | main.go:476-488 | a large file after a successful CREATE: the load into the shadow, then the deferred DROP, its error being the load's |
| Loader.InPlaceParseSpec | main.go:490-498 | a small file after a successful TRUNCATE: the load into the table itself |
| Loader.Parse | main.go:451-579 | the database after `Parse` and the error it returns are those of the batch-level specification (open, CREATE or TRUNCATE, batches, final flush, swap, deferred DROP) |
| Guarantees.FirstFault | main.go:547-551 | the number of leading statements of a run that the fault schedule lets through |
| Guarantees.ExecuteInserts | main.go:547-553 | the batch inserts add exactly the batches before the first fault to the target, and stop there |
| Guarantees.BatchPhase | main.go:516-574 | a load is its batch phase followed, if that succeeded, by the final flush |
| Guarantees.LoadStopsAtFault | main.go:547-551 | a failing batch insert ends the load with InsertFailed, keeping the batches before it |
| Guarantees.LoadStopsAtDecodeError | main.go:530-534 | a decode error ends the load with DecodeFailed, keeping the full batches already sent and sending no final flush |
| Guarantees.LoadEndsWithFlush | main.go:556-574 | a load that read every element sends all full batches, then the final flush |
| Guarantees.InPlaceGuarantee | main.go:490-574 | small file: a failed TRUNCATE changes nothing; otherwise only the table changes, it holds a prefix of the rows read, all of them when no error is returned, and a multiple of 5000 rows after an error |
| Guarantees.InPlaceNoFaults | main.go:490-574 | small file, no server faults: the table holds every row read, or, after a decode error, the full batches before it |
| Guarantees.ShadowLoad | main.go:547-572 | loading into the shadow either leaves the real table alone or replaces it by all rows read without error |
| Guarantees.ShadowDrop | main.go:487 | the deferred DROP removes the shadow unless it fails, and leaves everything else unchanged |
| Guarantees.ShadowNameDiffers | main.go:478 | the shadow table is never the table itself |
| Guarantees.ShadowGuarantee | main.go:476-574 | large file: a failed CREATE changes nothing; otherwise, apart from the shadow, the tables are unchanged or the table holds exactly the rows read with no error, and the shadow remains only if the last statement failed |
| Guarantees.ShadowNoFaults | main.go:556-572 | large file, no server faults: the table is replaced by the rows read iff there was no decode error and their number is not a multiple of 5000; otherwise nothing changes |
| Guarantees.PlanBatches | main.go:547-572 | ceil(N/5000) inserts of 1 to 5000 rows each into the target, then the swap exactly on the shadow path with N % 5000 != 0; the inserts carry the rows read, in order |
| Guarantees.InsertedRowsOfInserts | main.go:547-553 | the batch inserts carry exactly the batches' rows, in order |
| Guarantees.ExtractRowKeys | main.go:535-540 | every row read has exactly the struct's columns as keys |
| Guarantees.ExtractSkipsOthers | main.go:518-545 | tokens that are neither nil nor a wanted start tag add no row and leave the shared record as it was |
| Guarantees.ClosesSkip | main.go:530 | decoding stops exactly at the end tag of the element being read, whatever its content and whatever follows it |
| Guarantees.ExtractElement | main.go:529-541 | a wanted element whose attributes are accepted, whatever its content, adds exactly the row of the record it decodes to; its content (nested wanted elements included) adds nothing, and the loop resumes after its end tag with that record |
| Guarantees.ExtractOneElement | main.go:529-541 | the same for an empty wanted element (a start tag followed directly by its end tag) |
| Guarantees.ExtractCount | main.go:516-541 | a run of n wanted elements with accepted attributes, whatever their content, adds exactly n rows, ahead of the rows of what follows, which is read with the record the run left |
| Dispatch.CaseTablesDistinct | main.go:638-722 | two cases share a target table iff they are the same case |
| Dispatch.ElementIsStructName | main.go:638-722 | a case's element is named after its struct iff it is not CURENTST or NORMDOC |
| Dispatch.UnmatchedFileIgnored | main.go:723-724 | a file no pattern matches sends nothing and changes nothing |
| Dispatch.MatchedFileLoaded | main.go:638-722 | a file matching pattern `t` is loaded by `Parse` with case `t`'s table, element and struct |
| Dispatch.CaseFor | main.go:638-722 | each case's table, element name and struct (stated by CaseTablesDistinct and ElementIsStructName) |
| Dispatch.LoadEntry | main.go:638-724 | one file: `Parse` with its case, or nothing (stated by UnmatchedFileIgnored and MatchedFileLoaded) |
| Dispatch.RunFiles | main.go:637-726 | the directory loop as a fold over the files (stated by FoldAppend; Dispatch.LoadFiles is proved to follow it) |
| Dispatch.FoldAppend | main.go:637-726 | loading two lists of files is loading the first, then the second from where it left off |
| Dispatch.LoadOne | main.go:638-725 | one file changes the database as its case's `Parse` does, or not at all when unmatched |
| Dispatch.LoadFiles | main.go:637-726 | the directory loop leaves the database as loading each file in order would, ignoring every error |

## Left out

- The update check `checkNewFile` (main.go:340-402) is not part of this model. It asks the register's web service for the latest version over the network. It then reads the `TextVersion` row of the `config` table in the same database (main.go:372-387). When the version differs, it writes the new version into that row (main.go:388-391) before anything is downloaded, so a failed download or load still leaves the new version recorded.
- Downloading and unpacking (`DownLoadFile`, `UnRar`, the `PassThru` progress reader) are network and file I/O and are left out.
- The outer loop of `main` (main.go:598-729) is left out. Each pass runs the update check above, with its write to `config`, and then the whole file loop again; the model covers one pass of the file loop (`Dispatch.LoadFiles`). Its sleeps, the configuration file reading and all console and progress-bar output are left out too.
- Reading the directory and joining `dir + file.Name()` are left out. Each file is given as its name plus a `Source`: either unreadable, or its size and its XML token stream.
- Failures of `os.Open` and `file.Stat` both become `OpenFailed`. `sql.Open` only prepares a connection, so its failure is not modelled. The connection `Parse` opens per file is modelled as one session shared by all files.
- The XML tokenizer is not modelled. Its output is the token stream. A tokenizer error ends the loop exactly as the end of the stream does, since `Parse` ignores the error and stops on a nil token.
- Xml.DecodeElement: coercion of attribute text to integers, flags and strings is a parameter `coerce`, not a model of Go's `strconv` rules. Character data and child elements are skipped, since no struct field takes them.
- Records.ToLower: lower-cases ASCII letters only, where Go's `strings.ToLower` handles all of Unicode. The struct field names are ASCII.
- Records.RowOfAt: assumes the column name is not repeated later in the struct. The structs' field names are distinct.
- The SQL text built by goqu and PostgreSQL's own semantics are not modelled. A statement's effect is its `Apply`, and anything else the server might refuse is a fault in the schedule.
- `RowsAffected` and the `total` counter only feed console output and are left out.
- Concurrent readers of the tables are not modelled. Only the final state is stated, with the swap as one atomic statement.

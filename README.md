# A model of the XCOM 2 data-template site exporter

`main.py` reads the XCOM 2 data-template store (through the `x2py` library) and
turns it into a static site. It writes a JSON data file with every template
instance, an image manifest, and one front-matter page per template class and
per instance. This project models that logic in Dafny and proves its properties:

- **Encoder** (`encoder.dfy`). The JSON encoder's value transform makes every
  string HTML-safe:
  - the game's `<br\>` marker becomes `\n`;
  - `\"` becomes `"`;
  - the text is HTML-escaped;
  - every `\n` becomes `<br>`.

  It recurses through lists and dataclass fields. `DataObject` models a
  dataclass instance whose fields the transform overwrites in place. `Default`
  transforms a fresh copy, so the original is left as it was.
- **Dump** (`dump.dfy`). `SelectTemplates` keeps the classes of the class
  diagram that are template classes, keyed by case-folded name. `Document` is
  the encoded document.
- **Titles** (`titles.dfy`). There are three parts:
  - the generic `guess_title`;
  - the soldier-class title;
  - the per-class rules: the generic rule installed on `X2DataTemplate` and the
    nineteen overrides assigned to its subclasses. These are `Strategy` values
    in one table of twenty entries keyed by class name. A class uses the rule
    of the nearest class in its ancestor chain that has one, as Python
    attribute lookup does.
- **Pages** (`pages.dfy`). `recurse_classes` is stated twice:
  - as the specification functions `WalkNode`/`WalkChildren`, which return the
    sequence of files opened and the error that stopped the walk, if any;
  - as the class `SiteWriter`. Its recursive methods append to the `written`
    sequence and are proved equal to that specification.

  The page lemmas establish these properties:
  - the walk visits every class whatever the filter says;
  - it writes each accepted class's page and each instance's page exactly once
    (class names fold uniquely, and datanames are unique per class, as dict keys
    are); in general, as often as the store holds it (`WalkNodeCount`);
  - it writes nothing for rejected classes;
  - subclass pages precede their ancestors' at any depth (class names fold
    uniquely; `WalkNodePostOrder`), and a class's own pages always follow its
    subclasses' (`PostOrder`);
  - every page's path, permalink, ancestor chain and layout agree with the
    class filter and layout rules.
- **Manifest** (`manifest.dfy`). The image manifest maps the case-folded,
  slash-normalised path of every file to its slash-normalised path.
- **Text and values** (`text.dfy`, `values.dfy`). These model the Python string
  operations and value conventions the rest relies on: `casefold`, `replace`,
  `strip`, `rstrip`, `join`, truthiness, `getattr` and `str()`.

The filesystem is abstracted:
- a layout `_layouts/N.html` exists when `N` is in `Config.layouts`;
- opening a file appends a `Write` record;
- the glob result is an input sequence.

Python opens a page's file before it formats the page text. So when the layout
is unbound, or a title rule raises, an empty file is left behind and the program
stops. The model writes that file as `Write(path, owner, None)` and then
reports the error.

The model follows the code in three places where one might expect otherwise:
- Layout lookup can fail. There is no fallback to `x2datatemplate` /
  `x2datatemplate_`: when no ancestor has a class layout, `layout` is unbound
  and the program raises (`LayoutUnbound`). A site with no layout files at all
  therefore stops at its first class page. `DefaultLayoutAlwaysFound` shows
  what a site needs for lookup never to fail: an `x2datatemplate` layout.
- The instance-page layout is not the most specific one. The instance loop has
  no `break`, so the least specific `N_` layout wins (`InstanceLayoutLast`).
- The string transform is not idempotent: `&` becomes `&amp;` and then
  `&amp;amp;` (`TransformNotIdempotent`).

## Model

| member | source | states |
|---|---|---|
| Text.ReplaceAll | main.py:22-24 | `str.replace`, a left-to-right scan over non-overlapping matches; its properties are `ReplaceAbsent`, `ReplacePrefixFree`, `ReplaceAfter`, `ReplaceKeepsHead` and `ReplaceCharAt` |
| Text.ReplaceAbsent | main.py:22-24 | text in which some character of the pattern never occurs is returned unchanged |
| Text.ReplacePrefixFree | main.py:22-24 | `replace` copies a prefix that never holds the pattern's first character, and continues on the rest |
| Text.ReplaceAfter | main.py:22-24 | `replace` copies the text before the first occurrence of the pattern and replaces that occurrence |
| Text.Lower | main.py:77 | case folding keeps the length and folds each character independently |
| Text.ReplaceCharAt | main.py:188 | replacing one character by another keeps the length and maps every position on its own |
| Text.RStripChar | main.py:178 | `rstrip(c)` returns a prefix of the input that does not end in `c`, and only copies of `c` were removed |
| Text.Strip | main.py:178 | `strip()` returns the slice left after removing leading and trailing whitespace, and it starts and ends with non-whitespace |
| Text.CapitalizeFirst | main.py:157-158 | the first character is upper-cased and the rest are kept, with the same length |
| Text.Join | main.py:171-176 | joining no parts gives the empty string; joining one part gives that part |
| Values.Truthy | main.py:68 | Python truthiness of each kind of value; `FirstTruthyOfFound`, `AttrOr` and `ShowTruthyNonEmpty` state what the program relies on |
| Values.Lookup | main.py:67 | `getattr(o, name, None)` finds a value exactly when a field of that name exists, and returns the value of such a field |
| Values.Show | main.py:130 | `str()` of a string is the string itself |
| Encoder.Escape | main.py:22 | `html.escape` with `quote=True`; its properties are `EscapeNoAngles`, `EscapeClean`, `EscapeNoBackslash`, `EscapeGrows` and `EscapeAppend` |
| Encoder.EscapeAppend | main.py:22 | escaping works character by character: escaping a concatenation concatenates the escaped parts |
| Encoder.EscapeNoAngles | main.py:22 | `html.escape` leaves no `<` or `>` in its output |
| Encoder.EscapeClean | main.py:22 | `html.escape` returns text without `& < > " '` unchanged |
| Encoder.EscapeNoBackslash | main.py:22 | `html.escape` introduces no backslash |
| Encoder.EscapeGrows | main.py:22 | escaping never shortens a text; a text holding a special character grows and gains an `&` |
| Encoder.TransformString | main.py:21-24 | the string rewrite; its properties are `TransformStringSafe`, `CleanStringUnchanged`, `NoBackslashIsEscape`, `LineBreakBecomesTag` and `TransformNotIdempotent` |
| Encoder.ReplaceNewlinesSafe | main.py:22-24 | turning `\n` into `<br>` in text without angle brackets leaves no `\n`; every angle bracket is part of a `<br>` tag |
| Encoder.TransformStringSafe | main.py:21-24 | the output of the string rewrite has no `\n`, and every `<` or `>` belongs to a `<br>` tag it introduced |
| Encoder.CleanStringUnchanged | main.py:21-24 | a string without `& < > " ' \` is returned unchanged |
| Encoder.NoBackslashIsEscape | main.py:21-24 | on text without backslashes the whole rewrite is exactly `html.escape`: the `<br\>` and `\"` replacements and the `\n` replacement change nothing |
| Encoder.LineBreakBecomesTag | main.py:22-24 | for any texts `a` and `b` without backslashes, `a<br\>b` comes out as `escape(a)`, a `<br>` tag, then `escape(b)` |
| Encoder.NewlineKeepsQuotes | main.py:22 | the `\"` replacement leaves a `\n` marker between backslash-free texts as it is |
| Encoder.TransformNotIdempotent | main.py:21-24 | on every text without backslashes that holds one of `& < > " '`, a second pass changes the result again: the rewrite is not idempotent |
| Encoder.Transform | main.py:20-34 | the result is HTML-safe throughout; strings stay strings; lists keep their length and records keep their field names; any other value is returned unchanged |
| Encoder.TransformItems | main.py:25-26 | a list is transformed element by element with the same length |
| Encoder.TransformFields | main.py:27-34 | each field keeps its name and position and gets its transformed value |
| Encoder.DataObject.TransformInPlace | main.py:27-34 | the `setattr` loop leaves every field of the object holding its transformed value |
| Encoder.Default | main.py:36-46 | the copy's `setattr` loop runs through `TransformInPlace`; the returned record has the original's field names and transformed, HTML-safe values; the original object is not modified |
| Titles.Attr | main.py:160 | `template.X` yields the field's value, or raises for the missing attribute |
| Titles.AttrOr | main.py:166 | `X or Y` yields X when it is truthy and reads Y only otherwise; a missing X raises |
| Titles.FirstTruthyOf | main.py:62-69 | the loop returns either `None` or a truthy value |
| Titles.FirstTruthyOfFound | main.py:62-69 | when attribute k is the first truthy one, the loop returns its value |
| Titles.FirstTruthyOfNone | main.py:62-69 | when no attribute is truthy, the loop falls through to `None` |
| Titles.GuessTitle | main.py:153-182 | the rule families of the title table; their properties are `GuessTitleShape`, `FirstTruthyOfFound`, `FirstTruthyOfNone`, `JoinedRewardsTitle` and `RewardTitlesOk` |
| Titles.GuessTitleShape | main.py:153-182 | per rule: the generic rule never raises and yields `None` or a truthy value; a plain attribute rule is `template.X`; the capitalising, multiplayer and strip rules succeed exactly when the field they read is a string, and then the first upper-cases only that field's first character, the second is that field followed by its suffix, and the strip rules keep a prefix of the stripped field, dropping only trailing copies of the stripped character; every rule except the first three yields a string |
| Titles.RewardTitles | main.py:171-176 | on success, every reward name is a string, is in the reward store under its case fold, and its title is the reward class rule applied to that reward |
| Titles.RewardTitlesOk | main.py:171-176 | the comprehension succeeds exactly when every reward name is a string in the store whose title rule succeeds |
| Titles.GenericTitles | main.py:171-176 | the generic reward titles are all strings exactly when every reward name is a string naming a reward with a string title, and they are then those titles in order |
| Titles.JoinedRewardsTitle | main.py:171-176 | a joining rule over the generic reward title yields the `", "`-join of the rewards' titles when the field is a list of titled reward names, and raises otherwise |
| Titles.Overrides | main.py:153-182 | the rule table: the generic rule on `x2datatemplate` and the nineteen overrides; `DataTemplateRule`, `PointOfInterestEntry` and `RewardsUseDefault` state its entries |
| Titles.DataTemplateRule | main.py:153 | the root template class carries the generic rule |
| Titles.PointOfInterestEntry | main.py:171-176 | the point-of-interest class carries the rule that joins the generic titles of `RewardTypes` |
| Titles.Resolve | main.py:153-182 | attribute lookup of `guess_title` along the ancestor chain; `ResolveFirst` and `ResolveNone` state its result |
| Titles.ResolveFirst | main.py:153-182 | attribute lookup along the ancestor chain finds the rule of the first class that has one |
| Titles.ResolveNone | main.py:153-182 | the lookup finds no rule exactly when no class in the chain has one |
| Titles.RewardsUseDefault | main.py:153 | a class whose chain meets no rule before `x2datatemplate` uses the generic `guess_title` |
| Titles.PointOfInterestRule | main.py:171-176 | the point-of-interest title is the `", "`-join of the generic titles of the rewards listed in `RewardTypes` when each is a string naming a reward with a string title, and the rule raises otherwise |
| Titles.PageTitle | main.py:130 | the instance page title; `PageTitleFallback`, `PageTitleNonEmpty` and `DefaultPageTitle` state it, and `InstancePagesTitles` ties each page to it |
| Titles.PageTitleFallback | main.py:130 | the page title is `str()` of the rule's result when it is truthy, otherwise the instance name |
| Titles.ShowTruthyNonEmpty | main.py:130 | a truthy value never prints as the empty string |
| Titles.PageTitleNonEmpty | main.py:130 | an instance with a non-empty name always gets a non-empty page title |
| Titles.DefaultPageTitle | main.py:62-69 | under the generic rule the title is `DisplayName`, else `FriendlyName`, else the instance name |
| Pages.PatternAccepts | main.py:86-88 | the `x2{arg}template` match, a case-insensitive prefix test; `AcceptsIff` states its role |
| Pages.MatchesAny | main.py:83-90 | the argument scan; `MatchesAnyIff` states its result |
| Pages.Accepts | main.py:82-90 | the class filter; `AcceptsIff` and `AcceptsOwnName` state its result |
| Pages.MatchesAnyIff | main.py:83-90 | the argument scan succeeds iff some argument accepts the class name |
| Pages.AcceptsIff | main.py:82-90 | without `--templates` every class is emitted; otherwise exactly those some argument accepts, by folded equality or the `x2{arg}template` prefix |
| Pages.AcceptsOwnName | main.py:84 | an argument always accepts its own class name, in any case |
| Pages.ClassLayout | main.py:98-102 | a layout that is found exists |
| Pages.ClassLayoutFirst | main.py:98-102 | a class layout is found iff some chain entry has a layout, and it is the first such entry |
| Pages.InstanceLayout | main.py:119-122 | the instance-layout loop; `InstanceLayoutLast` and `InstanceLayoutExists` state its result |
| Pages.InstanceLayoutLast | main.py:119-122 | the instance layout is the last chain entry `N` with an `N_` layout, plus `_`; with no such entry it stays the class layout |
| Pages.FindClassLayout | main.py:98-102 | the `break` loop finds a layout exactly when one exists and returns the first one |
| Pages.FindInstanceLayout | main.py:119-122 | the loop without `break` returns the last match |
| Pages.DefaultLayoutAlwaysFound | main.py:98-102 | when the chain ends at `x2datatemplate` and that layout exists, a class layout is always found |
| Pages.InstanceLayoutExists | main.py:119-122 | the instance layout exists whenever the class layout does |
| Pages.OwnPages | main.py:82-139 | the class's own files; `OwnPagesCount`, `OwnPagesSound` and `OwnPagesCompletes` state them |
| Pages.InstancePages | main.py:124-139 | the instance files; `InstancePagesStops`, `InstancePagesCount`, `InstancePagesSound`, `InstancePagesTitles` and `InstancePagesCompletes` state them |
| Pages.WalkNode | main.py:76-139 | the files `recurse_classes` opens and the error that stops it; `WalkNodeCount`, `WalkNodeSound`, `WalkNodeChains`, `WalkNodeCompletes`, `PostOrder` and `WalkNodePostOrder` state them |
| Pages.WalkChildren | main.py:79-80 | the subclass loop; `WalkChildrenStops`, `WalkChildrenCount`, `WalkChildrenSound`, `WalkChildrenChains`, `WalkChildrenCompletes` and `WalkChildrenPostOrder` state it |
| Pages.WalkChildrenStops | main.py:79-80 | after a subclass fails, no later subclass is visited |
| Pages.InstancePagesStops | main.py:124-139 | after an instance title fails, no later instance gets a file |
| Pages.InstancePagesCount | main.py:124-139 | a completed instance loop writes one page per instance of that name, and none for other classes |
| Pages.OwnPagesCount | main.py:82-139 | a completed class writes its own class page and instance pages when the filter accepts it, and nothing otherwise |
| Pages.WalkNodeCount | main.py:76-139 | a completed walk writes each accepted class's and instance's page exactly as often as the store holds it, and none for a rejected class |
| Pages.WalkChildrenCount | main.py:79-80 | the same count for a list of subclasses |
| Pages.InstancePagesSound | main.py:124-139 | every instance file belongs to the class and names its chain; its path, permalink, flavor and layout are consistent; only a file the failure interrupted is empty |
| Pages.InstancePagesTitles | main.py:124-139 | the instance loop writes at most one file per instance, one per instance when it completes, and file i belongs to instance i: its path is `{classname}_{dataname}`, and it is empty exactly when that instance's title raises, otherwise its title is the page title |
| Pages.InstancePagesCompletes | main.py:124-139 | the instance loop ends without an error exactly when every instance's title rule succeeds |
| Pages.OwnPagesCompletes | main.py:82-139 | a class ends without an error exactly when it is rejected by the filter, or it has a class layout and every instance gets a title |
| Pages.WalkNodeCompletes | main.py:76-139 | the walk ends without an error exactly when every class below the start, and the start class, completes in that sense |
| Pages.WalkChildrenCompletes | main.py:79-80 | the same for a list of subclasses |
| Pages.OwnPagesSound | main.py:92-139 | the class's files are well formed, belong to the class and name its chain |
| Pages.WalkNodeSound | main.py:76-139 | every file of the walk is a well-formed page of an accepted class below the start; only the last file can be empty, and only on failure |
| Pages.WalkChildrenSound | main.py:79-80 | the same for a list of subclasses |
| Pages.WalkNodeChains | main.py:92-96 | every page's ancestor chain is a path in the class tree from its own class up to the start class, each entry naming a subclass of the next, followed by exactly the given ancestors |
| Pages.WalkChildrenChains | main.py:79-80 | every page of the subclass loop names a chain that is such a path from its class up to one of the subclasses, followed by the parent's chain |
| Pages.PostOrder | main.py:79-80 | every file of a subclass is opened before any file of the class itself |
| Pages.WalkNodePostOrder | main.py:79-80 | when sibling classes fold to distinct names, every page of any class in the walk comes after every page of its subclasses at any depth |
| Pages.WalkChildrenPostOrder | main.py:79-80 | the same for a list of subclasses |
| Pages.SiteWriter.RecurseClasses | main.py:76-139 | the recursive method appends exactly the walk's files and reports its failure |
| Pages.SiteWriter.WriteSubclasses | main.py:79-80 | the subclass loop appends the subclasses' files in order and stops at the first failure |
| Pages.SiteWriter.WriteOwnPages | main.py:82-122 | the filter, layout choice and class page append the class's own files |
| Pages.SiteWriter.WriteInstancePages | main.py:124-139 | the instance loop appends one file per instance up to the first failing title |
| Dump.Selected | main.py:51-57 | the data dictionary as a fold over the class diagram; `SelectedKeys` and `SelectedLastWins` state it |
| Dump.SelectTemplates | main.py:51-57 | the loop builds the data dictionary the fold `Selected` describes |
| Dump.SelectedKeys | main.py:52-57 | a key is present iff some template class of the diagram folds to it |
| Dump.SelectedLastWins | main.py:57 | among template classes folding to one key, the last in the diagram provides the instances |
| Dump.EncodeInstances | main.py:59 | each instance keeps its name and its fields are transformed |
| Dump.Document | main.py:59 | the document has the same keys and instance names, every instance's fields are the transformed fields of the original, and every string in it is HTML-safe |
| Manifest.Norm | main.py:188 | every backslash becomes a slash and nothing else changes |
| Manifest.Key | main.py:188 | the manifest key; `KeyIsLowerNorm` and `ListingEntries` state it |
| Manifest.Listing | main.py:185-188 | the manifest as a fold over the glob result; `ListingKeys`, `ListingEntries` and `ListingLastWins` state it |
| Manifest.BuildManifest | main.py:185-188 | the loop builds the map the fold `Listing` describes |
| Manifest.KeyIsLowerNorm | main.py:188 | folding case then normalising equals normalising then folding case |
| Manifest.ListingKeys | main.py:186-188 | a key is listed iff some regular file has it |
| Manifest.ListingEntries | main.py:188 | every key is the case fold of its value, and values contain no backslash |
| Manifest.ListingLastWins | main.py:185-188 | among files that fold to one key, the last one found is listed |

## Left out

- The `x2py` store and the construction of `X2` (main.py:14, 148) are foreign.
  They are replaced by a class tree (`ClassNode`), a name-to-class map
  (`ClassInfo`) and instance records (`Entry`).
- File I/O is abstracted:
  - `mkdir` is not modelled;
  - opening and writing a page appends a `Write` record;
  - the layout-existence test is the set `Config.layouts`;
  - `glob`/`is_file` are an input sequence and an input set;
  - the `XCOM2CONTENTPATH` environment variable is not modelled.
- `json.dump` serialisation, `dataclasses.asdict`/`fields`, `deepcopy` and
  `argparse` are library internals. Records are field sequences and the copy is
  value semantics.
- The exact text of the front matter (`dedent`, the `repr` of the chain) is not
  modelled. Pages are `FrontMatter` records with the same fields.
- The `_wotc/index.html` page and the top-level call order in the `__main__`
  block are not modelled. This covers the data file, then the title rules, then
  the manifest, then the walk from `X2DataTemplate`.
- Text.Lower: Unicode `casefold` is approximated by ASCII lower-casing.
- Pages.PatternAccepts: `re.match(x2{arg}template)` is a literal case-insensitive
  prefix test. Arguments with regex metacharacters are not modelled, nor is the
  `re.error` that `suppress(TypeError)` does not catch.
- Text.IsSpace: `strip()` uses the ASCII and Latin-1 whitespace set only.
- Values.Show: `str()` of lists and records is a `repr`-like rendering. Quoting and
  escaping details are not modelled, and float values are not modelled.
- Values.Show: `str()` of a dataclass instance is `ClassName(f=v, ...)` in Python;
  the model renders a record as `{'f': v, ...}` because records carry no class name.
- Text.CapitalizeFirst: `upper()` is ASCII only. Python upper-cases non-ASCII
  letters too ('é' becomes 'É'), and some change length ('ß' becomes "SS").
- Encoder.Transform: a nested dataclass object shared by two fields is
  transformed in place twice in the source, once per reference, so its strings
  are escaped twice. The model has value semantics and transforms each field
  value once.
- Encoder.Transform: `dict` and `tuple` field values are returned untransformed
  by the source, so their strings are not HTML-safe. The model has no such values.
- Titles.GuessTitle: a string `RewardTypes` would be iterated character by
  character in Python; the model raises `WrongType` for any non-list field.
- Text.Join: the contract covers only the empty and one-part cases. The
  point-of-interest title is stated through `JoinedRewardsTitle` instead.
- Titles.GuessTitleShape: the contract does not state the full result of the
  soldier-class rule; the reward-join rule is stated by `JoinedRewardsTitle`.
- Multiple inheritance is not modelled. The tree has single inheritance, and the
  ancestor chain is the path to the root.
- Values: dictionary-valued fields are not modelled. A nested dataclass is a
  `Record`.
- The capitalisation of one concrete ability-point title is not proved on a
  literal string; `GuessTitleShape` states the capitalisation rule of
  main.py:156-159 for every field value, and `AcceptsIff` states the class filter
  for every argument.

# rimworldMPBuilder, modelled in Dafny

rimworldMPBuilder builds a web page where a player designs a RimWorld colonist ("pawn") for
a multiplayer game: name, ages, backstories, traits, genes, skills and passions, checked
against the game's ruleset. It has two halves, and both are modelled here:

- **The data-extraction scripts** (`scripts/*.py`). They read the game's XML definitions and
  write the JSON tables the page loads. They resolve `ParentName` inheritance against
  abstract definitions, coerce fields with defaults, and clean description text. They sweep
  away empty keys, generate the synthetic aptitude and drug genes, and pack icons into an
  atlas.
- **The front end** (`docs/main.js`, `docs/formatters.js`, `docs/rgba.js` and the older
  `page/main.js`). It holds the string formatters and the RGBA hex codec. It also holds the
  gene and skill aggregates, the ruleset validator, and the conflict counters that enable
  and disable checkboxes. The age synchronisation, the passion cycle, the food formula, the
  gene-list updates and the grouping of genes by category are here too.

The XML tree is a value: a node is a tag, an attribute map, a text and a sequence of
children. Files, images, the DOM and the network are parameters or are left out. The
modules follow the source files:

| module | file | models |
|---|---|---|
| `Wrappers` | wrappers.dfy | `Option`, `Result` and the faults the scripts and pages raise |
| `Text` | text.dfy | Python `str` methods, JavaScript `trim`, `split`, `parseInt`, `Number` and `toString`, hex digits |
| `Xml` | xml.dfy | the ElementTree queries the scripts use (`find`, `findtext`, `findall`, `extend`) |
| `Records` | records.dfy | insertion-ordered dicts, JSON-like values, the sparse sweep |
| `Defs` | defs.dfy | extraction steps shared by the scripts (texts, comma lists, skill gains) |
| `Graphics` | graphics.dfy | scripts/graphics.py |
| `Genes` | genes.dfy | scripts/genes.py |
| `Traits` | traits.dfy | scripts/traits.py |
| `Backstories` | backstories.dfy | scripts/backstories.py |
| `Bodyparts` | bodyparts.dfy | scripts/bodyparts.py |
| `Formatters` | formatters.dfy | docs/formatters.js |
| `Rgba` | rgba.dfy | docs/rgba.js and `RGBA` of page/main.js |
| `Builder` | builder.dfy | docs/main.js |
| `Page` | page.dfy | what page/main.js does differently from docs/main.js |

Code that updates state step by step is modelled as methods with loops and invariants. Each
method is proved equal to a specification function, and the properties are lemmas about
those functions. Examples are the placing loop of the atlas, the sparse sweep, the
inheritance loops, the counters over an `array` of checkboxes, and the `Pawn` handlers.

## Model

| member | source | states |
|---|---|---|
| Graphics.FloorSqrt | scripts/graphics.py:23-24 | `math.floor(math.sqrt(n))`: the largest r with r·r ≤ n |
| Graphics.CeilSqrt | scripts/graphics.py:23-24 | `math.ceil(math.sqrt(n))`: the least c with n ≤ c·c |
| Graphics.ApproxFactor | scripts/graphics.py:20-27 | the grid (w, h) has w·h ≥ n, and h ≤ w ≤ h + 1 |
| Graphics.ApproxFactorColumns | scripts/graphics.py:24-27 | w is the ceiling of √n: the least w with n ≤ w·w |
| Graphics.ApproxFactorSquare | scripts/graphics.py:24-25 | a perfect square r·r gets the grid (r, r) |
| Graphics.ApproxFactorZero | scripts/graphics.py:31-33 | no images found gives the grid (0, 0) |
| Graphics.Found | scripts/graphics.py:14-18 | the found files have distinct names, exactly the requested names that have an image |
| Graphics.FoundSizes | scripts/graphics.py:16-18 | each found name is paired with the image the library holds for it |
| Graphics.FoundEntries | scripts/graphics.py:16-18 | every found entry's image is the library's image for its name |
| Graphics.FindFiles | scripts/graphics.py:14-18 | the lookup loop yields `Found(names, library)` |
| Graphics.Atlas | scripts/graphics.py:41-44 | `graphicsData` has one entry per placed file |
| Graphics.AtlasKeys | scripts/graphics.py:37-44 | the atlas names are the found names, in insertion order |
| Graphics.AtlasOffsets | scripts/graphics.py:41-44 | entry k maps the k-th name to the offset ((k mod w)·tileW, (k div w)·tileH) |
| Graphics.Paste | scripts/graphics.py:36-45 | the placing loop succeeds exactly when every tile has the tile size, fails with a size mismatch otherwise, and yields the atlas |
| Graphics.PlaceTiles | scripts/graphics.py:31-45 | the canvas is the grid for the file count times the tile size; the result is the atlas for that grid |
| Graphics.LoadGraphics | scripts/graphics.py:9-47 | `loadGraphics`: succeeds exactly when every found tile has the tile size; its names are the found names; its offsets are the atlas's; the canvas is the grid for the found-file count times the tile size |
| Graphics.TileInside | scripts/graphics.py:33-34 | for k < n, tile k lies inside the (w·tileW) × (h·tileH) canvas |
| Graphics.TileFits | scripts/graphics.py:41-42 | tile k of a w·h grid fits inside it |
| Graphics.RowBound | scripts/graphics.py:42 | a tile number below w·h falls in one of the h rows |
| Graphics.TileDistinct | scripts/graphics.py:41-42 | distinct tile numbers get distinct offsets |
| Graphics.ColumnsPositive | scripts/graphics.py:24-27 | at least one image gives at least one column |
| Xml.Extend | scripts/genes.py:180-181 | `bdef.extend(parent)`: the node keeps its tag, attributes and text, and its children are its own followed by the parent's |
| Xml.FindTextExtend | scripts/genes.py:180-181 | after inheriting, a `findtext` finds the definition's own child when it has one and the parent's otherwise |
| Xml.ItemsExtend | scripts/genes.py:180-181 | after inheriting, `iterfind("./group/li")` yields the definition's own items followed by the parent's |
| Records.Get | scripts/genes.py:159-166 | `d.get(k)` is absent exactly when k is not a key, and otherwise finds an entry of the dict |
| Records.GetAt | scripts/genes.py:159-166 | in a dict, looking up the key stored at a position finds the value stored there |
| Records.Put | scripts/genes.py:175-176 | `d[k] = v` keeps a dict; the key order is unchanged for a present key, else k is appended |
| Records.PutGet | scripts/genes.py:175-176 | after `d[k] = v`, k maps to v and every other key to its old value |
| Records.PutMembers | scripts/genes.py:175-176 | every entry after `d[k] = v` is (k, v) or an entry from before |
| Records.PutFresh | scripts/graphics.py:44 | assigning a new key appends it |
| Records.Sparse | scripts/genes.py:159-166 | the sweep's result is no longer than the dict |
| Records.SparseMembers | scripts/genes.py:159-166 | the sweep keeps exactly the entries whose value is not `None`, an empty list or an empty dict |
| Records.VacantKeys | scripts/genes.py:159-164 | `to_remove` holds exactly the keys of entries whose value is `None`, an empty list or an empty dict |
| Records.FindVacant | scripts/genes.py:159-164 | the first loop of the sweep collects `VacantKeys(d)` |
| Records.PopAll | scripts/genes.py:165-166 | the second loop pops each collected key, giving the dict without those keys |
| Records.Sweep | scripts/genes.py:159-167 | the two loops together yield `Sparse(d)` |
| Records.PopWithout | scripts/genes.py:165-166 | popping one more key is removing one more key |
| Records.VacantKeysSnoc | scripts/genes.py:160-164 | one more entry adds its key to `to_remove` exactly when its value is vacant |
| Records.WithoutExactly | scripts/genes.py:159-166 | removing a key list that names exactly the vacant entries is the sweep |
| Records.WithoutVacantKeys | scripts/genes.py:159-166 | removing the collected keys from a dict is the sweep |
| Records.VacantKeysSound | scripts/genes.py:160-164 | in a dict, a key is collected exactly when its own value is vacant |
| Records.SparseGet | scripts/genes.py:159-166 | after the sweep a key is present exactly when its value is not `None`, an empty list or an empty dict; zeros, `False` and "" stay, since the test is `is None` |
| Records.SparseUnique | scripts/genes.py:159-166 | the sweep leaves a dict |
| Records.SparseKeys | scripts/genes.py:159-166 | every key left after the sweep was a key before |
| Records.SparseIdempotent | scripts/genes.py:159-166 | sweeping twice is sweeping once |
| Records.ZipGet | scripts/genes.py:133-158 | a dict literal with distinct keys finds key i at value i |
| Records.ZipMissing | scripts/genes.py:133-158 | a key that is not written in a dict literal is not found in it |
| Records.SweptAt | scripts/genes.py:133-166 | a swept dict literal holds key i exactly when value i is not vacant |
| Records.SweptKeys | scripts/genes.py:133-166 | every key left after sweeping a dict literal is one of its written keys |
| Defs.TextValue | scripts/genes.py:75-76 | an `<li>` with no text gives `None` (null in the JSON), any other gives its text |
| Defs.TextValues | scripts/genes.py:75-76 | `[x.text for x in ...]` has one entry per item, in order, each the item's text or null |
| Defs.AppendTexts | scripts/traits.py:40-42 | the append loop yields the list so far followed by the items' texts |
| Defs.OptionalReal | scripts/traits.py:43-45 | an absent optional float stays `None`; a present one is read with `float` |
| Defs.EntryKeys | scripts/backstories.py:28-33 | every item whose entry is computed contributes its key |
| Defs.Gather | scripts/backstories.py:28-33 | the dict a `d[key] = value` loop fills is a dict |
| Defs.GatherFails | scripts/backstories.py:28-33 | the loop raises exactly when some item raises |
| Defs.GatherKeys | scripts/backstories.py:28-33 | the filled dict's keys are exactly the keys the items give |
| Defs.Collect | scripts/backstories.py:28-33 | the loop itself yields `Gather`, stopping at the first item that raises |
| Defs.GatherPrefix | scripts/backstories.py:28-33 | once an item raises, the later items are never reached |
| Defs.GatherLast | scripts/backstories.py:28-33 | with no failures, a key that no later item repeats keeps its value: the last duplicate wins |
| Defs.SkillEntry | scripts/backstories.py:30-33 | a skill gain without `key` or without `value` fails the assertion |
| Defs.CommaItems | scripts/backstories.py:41-42 | every comma item is non-empty, comma-free and has no surrounding white space |
| Defs.CommaTags | scripts/backstories.py:39-42 | a missing element or the text "None" (after stripping) gives no tags; otherwise the stripped, non-empty comma items |
| Defs.LiTexts | scripts/backstories.py:35-38 | the `<li>` loop fails its assertion exactly when some item has no text, and otherwise yields the texts in order |
| Defs.CollectLiTexts | scripts/backstories.py:35-38 | the `<li>` loop yields `LiTexts` |
| Defs.CollectWorkTags | scripts/backstories.py:35-42 | the two loops yield the `<li>` texts followed by the comma items |
| Defs.LiTextsSnoc | scripts/backstories.py:36-38 | one more item appends its text, or fails when it has none |
| Defs.CommaTagsJoin | scripts/backstories.py:39-42 | writing clean tags as "a,b,c" and reading them back gives the same tags, unless the list is just "None" |
| Genes.Channel | scripts/genes.py:27-38 | a channel with a "." is `int(float(t) * 255)`; any other is `int(t)`, failing exactly when `int` fails |
| Genes.ParseColor | scripts/genes.py:24-44 | empty text fails on `text[0]`; text not wrapped in parentheses fails the assertion; a result had exactly three comma parts and has the keys R, G, B, A with A = 1.0 |
| Genes.Channels | scripts/genes.py:26-44 | the unpacking succeeds only on exactly three comma parts; the object always has A = 1.0 |
| Genes.ParseColorInts | scripts/genes.py:24-44 | "(r,g,b)" with integer channels reads back (r, g, b, 1.0) unchanged |
| Genes.ParseParens | scripts/genes.py:25-26 | `parseColor` reads what lies between the parentheses |
| Genes.ChannelShowInt | scripts/genes.py:29-30 | an integer channel as `str` writes it is read back unchanged |
| Genes.GeneOf | scripts/genes.py:51-111 | a definition without a description fails (`None.replace`); display order and metabolism default to 0, complexity to 1; the icon path is the definition's |
| Genes.ForcedTrait | scripts/genes.py:81-85 | a forced trait is keyed by its `def` text ("null" when missing) with an integer degree: 0 when missing, otherwise `int` of the text, failing exactly when `int` fails |
| Genes.InitGene | scripts/genes.py:51-111 | `gene.__init__`, loops included, yields `GeneOf` |
| Genes.ExportValues | scripts/genes.py:133-158 | `export` writes one value per key of its dict literal |
| Genes.ExportGene | scripts/genes.py:132-167 | `gene.export` builds the dict and sweeps it, yielding `Export(g)` |
| Genes.Export | scripts/genes.py:132-167 | the exported gene is a dict, and each of its keys is one `export` writes |
| Genes.ExportAt | scripts/genes.py:132-167 | field i of the literal survives exactly when its value is not vacant |
| Genes.ExportNoSkills | scripts/genes.py:145 | the `"skills": {}` placeholder never survives the sweep |
| Genes.ExportDisplayOrder | scripts/genes.py:141 | the display order is always exported, zero included |
| Genes.ExportIconPath | scripts/genes.py:138 | the icon path is exported exactly when the definition has one |
| Genes.Registered | scripts/genes.py:175-176 | the registry loop fails exactly when an abstract definition has no `Name`; it only adds names |
| Genes.RegisteredFinds | scripts/genes.py:175-176 | every abstract definition can be found under its name afterwards |
| Genes.RegisteredPrefix | scripts/genes.py:175-176 | a failure among the first definitions fails the whole loop |
| Genes.Resolve | scripts/genes.py:180-181 | no `ParentName`: the definition as it is; a registered parent: its children appended; an unregistered parent: a missing-key failure |
| Genes.ResolveOwnFirst | scripts/genes.py:180-181 | after resolving, a scalar field is the definition's own when present, and list items are its own followed by the parent's |
| Genes.Concrete | scripts/genes.py:177-179 | the second loop reads exactly the definitions without an `Abstract` attribute |
| Genes.ConcreteAppend | scripts/genes.py:177-179 | the concrete definitions of two runs of definitions are each run's, in order |
| Genes.ConcreteAt | scripts/genes.py:177-179 | a concrete definition keeps its place among the concrete ones |
| Genes.MapFails | scripts/genes.py:177-183 | a concrete definition that fails ends the file with a failure |
| Genes.ReadSpec | scripts/genes.py:173-183 | one file registers its abstract definitions and emits one record per concrete definition |
| Genes.ReadAllPrefix | scripts/genes.py:173-183 | a file that fails makes every longer run of files fail |
| Genes.IconsSnoc | scripts/genes.py:59-60 | one more gene adds its icon path to the search |
| Genes.IconsAppend | scripts/genes.py:59-60 | the icon paths of two runs of genes are the union of each run's |
| Genes.IconsMember | scripts/genes.py:59-60 | a path is searched exactly when some gene carries it |
| Genes.ExportIcon | scripts/genes.py:59-60 | an exported gene carries its icon path exactly when the definition has one |
| Genes.EmitGene | scripts/genes.py:180-183 | a definition that resolves and reads is emitted as its export, a dict whose icon path, if any, is text |
| Genes.EmitterRecords | scripts/genes.py:180-183 | every record a file emits is a dict whose icon path, if any, is text |
| Genes.Row | scripts/genes.py:193-209 | the inner generator loop appends one gene per column key |
| Genes.RowAt | scripts/genes.py:193-209 | gene j of a row is the cell of column key j, numbered start + j |
| Genes.GridAt | scripts/genes.py:192-209 | the nested loops append one gene per row and column key, row after row; gene i·cols + j is numbered i·cols + j |
| Genes.GridCell | scripts/genes.py:192-209 | the same, for a position the caller names |
| Genes.GridLength | scripts/genes.py:192-209 | the nested loops append rows × columns genes |
| Genes.GridLoop | scripts/genes.py:192-209 | the nested loops yield `Grid` |
| Genes.RowLoop | scripts/genes.py:193-209 | the inner loop yields `Row`, counting `order` from its start |
| Genes.GridTextIcons | scripts/genes.py:199 | every generated gene carries a text icon path |
| Genes.GridOrder | scripts/genes.py:191-209 | every generated gene's display order is its position |
| Genes.GridNumbered | scripts/genes.py:191-209 | a property each cell has with its own number, each generated gene has with its position |
| Genes.AptitudeValues | scripts/genes.py:194-208 | an aptitude gene is named "Aptitude{level}_{skill}", has the icon path of its skill and level, its display order, and the level's offset on its one skill |
| Genes.AptitudeKeysDistinct | scripts/genes.py:194-208 | the aptitude gene literal has distinct keys |
| Genes.AptitudeRecord | scripts/genes.py:194-208 | an aptitude gene is a dict with its name, icon path, display order and, as its only effect, the level's offset on its one skill |
| Genes.AptitudesLayout | scripts/genes.py:187-210 | there are 44 aptitude genes; the one for skill s and level l is at 4·s + l, and each gene's display order is its position |
| Genes.SkillsPlain | scripts/genes.py:187-188 | the skill names are distinct and hold no "_" |
| Genes.LevelsPlain | scripts/genes.py:189-190 | the level keys are distinct and hold no "_" |
| Genes.AptitudeNameInjective | scripts/genes.py:195 | the name determines its level and skill when neither holds "_" |
| Genes.AptitudeNamesDistinct | scripts/genes.py:192-195 | two different skill and level pairs get two different names |
| Genes.DrugValues | scripts/genes.py:222-235 | a drug gene has the icon path of its drug and level, its display order, and the metabolism its drug picks |
| Genes.DrugKeysDistinct | scripts/genes.py:222-235 | the drug gene literal has distinct keys and no `skills` |
| Genes.DrugRecord | scripts/genes.py:222-235 | a drug gene is a dict with its icon path, display order and metabolism, and no skills |
| Genes.DrugGenesLayout | scripts/genes.py:213-237 | there are 15 drug genes; the one for drug d and level l is at 3·d + l; the display order counts from 0 again |
| Genes.DrugMetabolismFirst | scripts/genes.py:230 | a drug's metabolism is the first of its level's pair exactly when the drug is flagged |
| Genes.GeneratedRecords | scripts/genes.py:194-237 | every generated gene carries a text icon path |
| Genes.WithIcon | scripts/genes.py:242-243 | a gene without an icon path is unchanged; an icon path the atlas lacks is a missing-key failure; otherwise the path becomes its atlas entry and the keys are unchanged |
| Genes.WithIconOthers | scripts/genes.py:242-243 | rewriting the icon path leaves every other field as it was |
| Genes.WithIcons | scripts/genes.py:241-243 | the rewrite of all genes keeps their number and rewrites each |
| Genes.WithIconsFails | scripts/genes.py:241-243 | the rewrite fails exactly when some gene's rewrite fails |
| Genes.RewriteIcon | scripts/genes.py:242-243 | one turn of the rewriting loop yields `WithIcon` |
| Genes.WithIconsAll | scripts/genes.py:241-243 | rewriting every gene one by one is rewriting the list |
| Genes.IconsResolved | scripts/genes.py:241-243 | the rewrite succeeds exactly when the atlas holds every icon path the genes carry |
| Genes.GeneScript.constructor | scripts/genes.py:170-171 | the script starts with no abstract definitions, no genes and no paths to look up |
| Genes.GeneScript.AppendValid | scripts/genes.py:183 | appending a gene keeps every gene a dict whose icon path is searched |
| Genes.GeneScript.ReadFile | scripts/genes.py:173-183 | reading one file registers its abstract definitions and appends its genes and their icon paths, as `ReadSpec` says |
| Genes.GeneScript.Register | scripts/genes.py:175-176 | the first loop of a file yields `Registered` |
| Genes.GeneScript.ReadDefs | scripts/genes.py:177-183 | the second loop appends the emitted genes of the concrete definitions and their icon paths, failing exactly when one fails |
| Genes.GeneScript.ReadNext | scripts/genes.py:177-183 | one turn of the second loop skips an abstract definition and reads a concrete one |
| Genes.GeneScript.ReadConcrete | scripts/genes.py:180-183 | a concrete definition is read and appended, or its failure ends the file |
| Genes.GeneScript.AppendRecord | scripts/genes.py:183 | `genes.append` and the icon path added to the search |
| Genes.GeneScript.ReadFiles | scripts/genes.py:173-183 | the loop over the files appends what `ReadAllSpec` gives |
| Genes.GeneScript.AddGrid | scripts/genes.py:191-210 | a generator appends its grid of genes and their icon paths |
| Genes.GeneScript.ExtendValid | scripts/genes.py:191-210 | appending generated genes keeps the state valid |
| Genes.GeneScript.AddAptitudes | scripts/genes.py:186-210 | the aptitude loops append `Aptitudes()` and their icon paths |
| Genes.GeneScript.AddDrugs | scripts/genes.py:212-237 | the drug loops append `DrugGenes()` and their icon paths |
| Genes.GeneScript.RewriteIcons | scripts/genes.py:241-243 | the rewrite loop replaces the genes with `WithIcons` and fails exactly when it does |
| Genes.GeneScript.BuildAtlas | scripts/genes.py:239-243 | the atlas holds the found icons; the genes are rewritten against it; when every searched icon is a 128 × 128 image, nothing fails |
| Traits.CleanSteps | scripts/traits.py:17-18 | cleaning is the two line-break steps followed by the placeholder steps |
| Traits.CleanDescription | scripts/traits.py:17-18 | cleaning never lengthens the text: every replacement is no longer than its pattern |
| Traits.PlaceholdersAbsent | scripts/traits.py:18 | no placeholder step changes text without brackets and braces |
| Traits.CleanPlain | scripts/traits.py:17-18 | text with no backslash, no double line break, no bracket and no brace is returned unchanged |
| Traits.CleanBreaksOnly | scripts/traits.py:17-18 | without escapes, brackets or braces, cleaning only merges double line breaks |
| Traits.CleanThreeBreaks | scripts/traits.py:18 | three line breaks become two: the merge does not overlap |
| Traits.CleanTwoBreaks | scripts/traits.py:18 | two line breaks become one |
| Traits.CleanNotIdempotent | scripts/traits.py:17-18 | cleaning is not idempotent: cleaning "\n\n\n" twice gives a different text than once |
| Traits.CleanEscapesFirst | scripts/traits.py:18 | escapes are expanded before breaks are merged, so two escaped breaks become one break |
| Traits.CleanBraces | scripts/traits.py:18 | the brace form of a placeholder is replaced too |
| Traits.ChainAppend | scripts/traits.py:18 | running two replacement chains in turn is running the joined chain |
| Traits.DegreeOf | scripts/traits.py:20-45 | a degree without a description fails (`None.replace`); a missing degree number is 0, a present one is read with `int`; the skill gains form a dict |
| Traits.DegreeNeedsKeyAndValue | scripts/traits.py:29-33 | a skill gain without its key or its value makes the degree fail |
| Traits.InitDegree | scripts/traits.py:20-45 | `traitDegree.__init__`, loops included, yields `DegreeOf` |
| Traits.DegreeKeysDistinct | scripts/traits.py:64-73 | the degree's dict literal has distinct keys |
| Traits.DegreeValues | scripts/traits.py:64-73 | `traitDegree.export` writes one value per key |
| Traits.ExportDegree | scripts/traits.py:63-82 | `traitDegree.export` builds the dict and sweeps it, yielding `DegreeRecord(d)` |
| Traits.DegreeRecordFields | scripts/traits.py:63-82 | the degree number (0 included) and the description always survive the sweep; the label only when present; the skills only when there are some |
| Traits.DegreeLabel | scripts/traits.py:63-82 | the label survives exactly when present |
| Traits.DegreeDesc | scripts/traits.py:63-82 | the description always survives |
| Traits.DegreeNumber | scripts/traits.py:63-82 | the degree number always survives, zero included |
| Traits.DegreeSkills | scripts/traits.py:63-82 | the skills survive exactly when there are some |
| Traits.CollectDegrees | scripts/traits.py:124-127 | the degrees loop fills the dict keyed by degree number, as `Gather` does |
| Traits.DegreesLast | scripts/traits.py:124-127 | a degree that no later `<li>` repeats is found under its number as its own export |
| Traits.LaterKeysDiffer | scripts/traits.py:127 | distinct degree numbers give distinct keys |
| Traits.ListsAsWrittenMisfile | scripts/traits.py:97-105 | on a trait with one exclusion tag and one conflicting passion, the as-written lists misfile both and leave their own lists empty; the corrected lists do not |
| Traits.GroupsOf | scripts/traits.py:94-105 | for any trait with only those two groups, the as-written and the corrected readings differ as above |
| Traits.Commonality | scripts/traits.py:90-92 | a missing commonality is 1.0 |
| Traits.TraitOf | scripts/traits.py:87-127 | a trait's degrees are a dict filled by the degrees loop; its lists are the lists as the loops fill them, so its exclusion tags and conflicting passions are always empty |
| Traits.TraitIntended | scripts/traits.py:94-105 | the trait as evidently meant reads exactly when the one as written does, with the same fields and each group's items in its own list; merging its lists as the loops do gives the trait as written |
| Traits.Merged | scripts/traits.py:94-105 | the merge the loops make leaves the exclusion tags and the conflicting passions empty, and adds their items to the conflicting traits and the forced passions, as multisets |
| Traits.InitTrait | scripts/traits.py:87-127 | `trait.__init__`, loops included (two of them append to another group's list), yields `TraitOf` |
| Traits.TraitKeysDistinct | scripts/traits.py:137-147 | the trait's dict literal has distinct keys |
| Traits.TraitValues | scripts/traits.py:137-147 | `trait.export` writes one value per key |
| Traits.TraitRecordKeys | scripts/traits.py:133-147 | a trait is exported with all nine keys, in order, with no sweep |
| Traits.TraitRecordGet | scripts/traits.py:137-147 | each key holds its value, vacant or not |
| Traits.TraitExport | scripts/traits.py:94-147 | one `TraitDef` read and exported fails exactly when reading it fails; it is a dict of the nine keys, each once; `exclusionTags` and `conflictingFlames` are always empty lists; `conflictingTraits` holds the conflicting traits and then the exclusion tags, `forcedFlames` the forced passions and then the conflicting ones |
| Traits.TraitRecordLists | scripts/traits.py:140-143 | the exported trait holds its lists under their own keys |
| Traits.ReadTrait | scripts/traits.py:155-156 | `trait(tdef).export()` yields `TraitExport` |
| Traits.TraitExportIntended | scripts/traits.py:94-147 | the export as evidently meant succeeds exactly when the one as written does, is a dict of the nine keys, and each of the four lists holds the `<li>` texts of its own group |
| Traits.ReadTraitsKeys | scripts/traits.py:152-156 | all traits read from the files share the nine keys |
| Traits.ReadTraits | scripts/traits.py:152-156 | the loops over the files and their `TraitDef`s export each trait in order, stopping at the first failure |
| Backstories.Included | scripts/backstories.py:9-12 | the files read are exactly the walked files whose name is not excluded, in the walk's order |
| Backstories.Roots | scripts/backstories.py:77-78 | one parsed root per file, in order |
| Backstories.TraitCleanExtends | scripts/backstories.py:17-18 | the trait cleaner is the backstory cleaner followed by the four brace steps |
| Backstories.CleanDescription | scripts/backstories.py:17-18 | cleaning never lengthens the text: every replacement is no longer than its pattern |
| Backstories.CleanPlain | scripts/backstories.py:17-18 | text with no backslash, no line break and no bracket is returned unchanged |
| Backstories.BracesKept | scripts/backstories.py:18 | only bracket placeholders are replaced; a brace placeholder survives, where the trait cleaner replaces it |
| Backstories.Desc | scripts/backstories.py:17-25 | `cleanDescription` as evidently meant: a missing `baseDesc` fails on `None.replace`; otherwise the description is the cleaned string itself |
| Backstories.DescAsWrittenWraps | scripts/backstories.py:17-18 | as written, the trailing comma makes every description a one-element tuple, written as a list, never the string |
| Backstories.DescPlain | scripts/backstories.py:17-25 | a plain description comes back as written from the corrected cleaner, and wrapped in a list from the one as written |
| Backstories.ForcedTraitEntry | scripts/backstories.py:55-59 | a forced trait is keyed by its tag; no text gives 0; text gives `int(text)`, failing exactly when `int` fails |
| Backstories.BackstoryOf | scripts/backstories.py:20-59 | a missing `baseDesc` fails; the description is the one-element list the trailing comma makes of the cleaned text; the slot is the definition's; skills and forced traits are dicts filled by their loops |
| Backstories.BackstoryIntended | scripts/backstories.py:17-59 | the backstory as evidently meant reads exactly when the one as written does, with the same fields, except that its description is the cleaned string the one-element list holds |
| Backstories.InitBackstory | scripts/backstories.py:20-59 | `backstory.__init__`, loops included, yields `BackstoryOf` |
| Backstories.ForcedTraitLast | scripts/backstories.py:54-59 | a forced trait is found under its tag with the entry of its last occurrence |
| Backstories.ForcedTraitNeedsInt | scripts/backstories.py:58-59 | a forced trait whose text is not an integer makes the backstory fail |
| Backstories.SkillNeedsKeyAndValue | scripts/backstories.py:29-33 | a skill gain without its key or its value makes the backstory fail |
| Backstories.BackstoryKeysDistinct | scripts/backstories.py:62-71 | the export's dict literal has distinct keys |
| Backstories.BackstoryValues | scripts/backstories.py:62-71 | `export` writes one value per key |
| Backstories.BackstoryRecordKeys | scripts/backstories.py:61-71 | a backstory is always exported with all eight keys, in order, with no sweep |
| Backstories.BackstoryRecordFields | scripts/backstories.py:61-71 | the exported name, title, description and traits are what was read |
| Backstories.ExportedDesc | scripts/backstories.py:17-71 | the exported `desc` is the list holding the cleaned text as written, and the cleaned text itself as intended |
| Backstories.Slotted | scripts/backstories.py:81-84 | a backstory is appended to a slot's list exactly when its slot is that slot |
| Backstories.SlottedCases | scripts/backstories.py:81-84 | an adulthood goes to the adulthoods only, a childhood to the childhoods only, any other slot to neither |
| Backstories.InSlot | scripts/backstories.py:79-84 | a slot's list is no longer than the backstories read |
| Backstories.InSlotMembers | scripts/backstories.py:79-84 | a slot's list holds exactly the exports of the backstories in that slot |
| Backstories.Unslotted | scripts/backstories.py:81-84 | the dropped backstories are exactly those with neither slot |
| Backstories.SlotPartition | scripts/backstories.py:79-84 | the two lists and the dropped backstories together are as many as the backstories read |
| Backstories.SortedFails | scripts/backstories.py:77-84 | the lists are written only when every backstory reads; otherwise the first failure stops the script |
| Backstories.InSlotSnoc | scripts/backstories.py:81-84 | one more backstory appends its export to its slot's list |
| Backstories.ReadBackstories | scripts/backstories.py:77-84 | the loop over the included files and their `BackstoryDef`s yields `Sorted` |
| Backstories.ReadAll | scripts/backstories.py:79-80 | every definition is read in order, stopping at the first failure |
| Backstories.SortSlots | scripts/backstories.py:81-84 | the `if`/`elif` appends yield each slot's list |
| Bodyparts.ParseFloatList | scripts/bodyparts.py:26-31 | a missing text stays missing; an empty text fails on `text[0]`; text not in parentheses fails the assertion; otherwise there is one number per comma-separated piece |
| Bodyparts.OccurrencesParens | scripts/bodyparts.py:29-30 | the parentheses hold no comma, so the pieces are split on the commas of the text |
| Bodyparts.ParseFloatListJoin | scripts/bodyparts.py:26-31 | a list written as the game writes it, in parentheses and comma-joined, reads back piece by piece |
| Bodyparts.Reals | scripts/bodyparts.py:31 | one exported number per piece, in order |
| Bodyparts.FloatListVacant | scripts/bodyparts.py:26-31 | a parsed list is never empty, so the export drops such a field exactly when its text is missing |
| Bodyparts.HeadOf | scripts/bodyparts.py:35-49 | a head is read exactly when its four float lists parse; the texts are kept as they are |
| Bodyparts.HeadKeysDistinct | scripts/bodyparts.py:52-63 | the head export's dict literal has distinct keys |
| Bodyparts.HeadValues | scripts/bodyparts.py:52-63 | one value per head key |
| Bodyparts.ExportHead | scripts/bodyparts.py:51-72 | the export loop pops exactly the vacant keys of the dict |
| Bodyparts.HeadRecordAt | scripts/bodyparts.py:64-72 | a head field is exported exactly when it is not `None`, `[]` or `{}`, and unchanged |
| Bodyparts.HeadSearchOfRecord | scripts/bodyparts.py:38-39 | the head's search key is its exported graphic path plus "_south"; without a path there is neither |
| Bodyparts.HairOf | scripts/bodyparts.py:76-90 | a hair is read exactly when its two float lists parse; the path is `texPath` and the style tags are the `<li>` texts |
| Bodyparts.InitHair | scripts/bodyparts.py:76-90 | `hairType.__init__`, with its loop over the style tags, yields `HairOf` |
| Bodyparts.HairKeysDistinct | scripts/bodyparts.py:93-102 | the hair export's dict literal has distinct keys |
| Bodyparts.HairValues | scripts/bodyparts.py:93-102 | one value per hair key |
| Bodyparts.ExportHair | scripts/bodyparts.py:92-111 | the export loop pops exactly the vacant keys of the dict |
| Bodyparts.HairRecordAt | scripts/bodyparts.py:103-111 | a hair field is exported exactly when it is not vacant, and unchanged |
| Bodyparts.HairRecordKeys | scripts/bodyparts.py:92-111 | every exported key is a hair key |
| Bodyparts.HairStyleTags | scripts/bodyparts.py:84-86 | the style tags are exported exactly when there is at least one `<li>` |
| Bodyparts.HairTagsField | scripts/bodyparts.py:99-108 | an empty tag list is dropped; otherwise it is exported as it is |
| Bodyparts.HairSearchOfRecord | scripts/bodyparts.py:79-81 | the hair's search key is its exported texture path; without a path there is neither |
| Bodyparts.Registered | scripts/bodyparts.py:118-128 | registering fails exactly when an abstract definition has no `Name`; no name already registered is lost |
| Bodyparts.RegisteredAppend | scripts/bodyparts.py:118-128 | registering two runs is registering the first, then the second |
| Bodyparts.RegisteredFinds | scripts/bodyparts.py:121-122 | an abstract definition is found under its name afterwards |
| Bodyparts.Register | scripts/bodyparts.py:120-122 | the registering loop yields `Registered` |
| Bodyparts.RegisterAll | scripts/bodyparts.py:118-128 | the first pass fails only on a missing `Name` |
| Bodyparts.RegisterAllParts | scripts/bodyparts.py:118-128 | the first pass succeeds exactly when the three kinds register, each into its own registry |
| Bodyparts.ParentInAnyFile | scripts/bodyparts.py:118-141 | a parent registered in any file, even a later one, can be found while reading every file |
| Bodyparts.Concrete | scripts/bodyparts.py:137-138 | the definitions read are no more than those found |
| Bodyparts.ConcreteMembers | scripts/bodyparts.py:137-138 | exactly the definitions without an `Abstract` attribute are read |
| Bodyparts.EmittedConcrete | scripts/bodyparts.py:136-142 | the second loop reads the concrete definitions one by one, stopping at the first failure |
| Bodyparts.EmittedSnoc | scripts/bodyparts.py:136-142 | one more definition: skipped if abstract, otherwise read and appended |
| Bodyparts.EmittedStops | scripts/bodyparts.py:136-142 | once a definition fails, the whole run fails the same way |
| Bodyparts.ParentOwnKind | scripts/bodyparts.py:139-154 | a parent is looked up in the registry of the definition's own kind; one registered elsewhere is a missing key |
| Bodyparts.HeadOwnFirst | scripts/bodyparts.py:139-141 | after `extend`, a head's own graphic path wins over its parent's |
| Bodyparts.HairOwnFirst | scripts/bodyparts.py:146-148 | after `extend`, a hair's own style tags come first, then its parent's |
| Bodyparts.Each | scripts/bodyparts.py:142 | one record per definition read |
| Bodyparts.EachAt | scripts/bodyparts.py:142 | record `i` is the export of definition `i` |
| Bodyparts.UnionMember | scripts/bodyparts.py:39 | every search key is one that some definition adds |
| Bodyparts.FileOutputOk | scripts/bodyparts.py:134-156 | a file whose three loops succeed adds their exports and search keys |
| Bodyparts.FileHeadsFail | scripts/bodyparts.py:136-142 | a file whose heads fail fails with them |
| Bodyparts.FileHairsFail | scripts/bodyparts.py:143-149 | heads read but hairs failing: the file fails with the hairs |
| Bodyparts.FileBeardsFail | scripts/bodyparts.py:150-156 | heads and hairs read but beards failing: the file fails with the beards |
| Bodyparts.MergeHeads | scripts/bodyparts.py:136-142 | the heads change only the head list and the search |
| Bodyparts.MergeHairs | scripts/bodyparts.py:143-149 | the hairs change only the hair list and the search |
| Bodyparts.MergeBeards | scripts/bodyparts.py:150-156 | the beards change only the beard list and the search |
| Bodyparts.FilesOutputPrefix | scripts/bodyparts.py:134-156 | once a file fails, the second pass fails the same way |
| Bodyparts.BeardsHairShaped | scripts/bodyparts.py:155-156 | every beard is exported with the hair shape |
| Bodyparts.FileBeards | scripts/bodyparts.py:150-156 | the beards of a file read whole are the records of its beard definitions |
| Bodyparts.AbstractNeverEmitted | scripts/bodyparts.py:137-138 | every exported head comes from a concrete definition |
| Bodyparts.FileHeads | scripts/bodyparts.py:136-142 | the heads of a file read whole: one per concrete definition, in order |
| Bodyparts.BodypartScript.constructor | scripts/bodyparts.py:114-132 | empty registries, empty lists and an empty search |
| Bodyparts.BodypartScript.RegisterFiles | scripts/bodyparts.py:118-128 | the first loop fills the registries with `RegisterAll`, or fails on a missing `Name` |
| Bodyparts.BodypartScript.ReadFiles | scripts/bodyparts.py:134-156 | the second loop adds what `FilesOutput` collects, or fails as it does |
| Bodyparts.BodypartScript.ReadFile | scripts/bodyparts.py:135-156 | one file adds what `FileOutput` collects, or fails as it does |
| Bodyparts.BodypartScript.ReadHeads | scripts/bodyparts.py:136-142 | the head loop reads as `Emitted` and adds those heads |
| Bodyparts.BodypartScript.AddHeads | scripts/bodyparts.py:39-142 | the head list gains the exports and the search gains the keys |
| Bodyparts.BodypartScript.ReadHairs | scripts/bodyparts.py:143-149 | the hair loop reads as `Emitted` and adds those hairs |
| Bodyparts.BodypartScript.AddHairs | scripts/bodyparts.py:81-149 | the hair list gains the exports and the search gains the keys |
| Bodyparts.BodypartScript.ReadBeards | scripts/bodyparts.py:150-156 | the beard loop reads as `Emitted` and adds those beards |
| Bodyparts.BodypartScript.AddBeards | scripts/bodyparts.py:81-156 | the beard list gains the exports and the search gains the keys |
| Bodyparts.EmitAll | scripts/bodyparts.py:136-142 | the loop, for any reader, yields `Emitted` |
| Bodyparts.RegisteredPrefix | scripts/bodyparts.py:118-128 | a run that cannot be registered stays so, whatever follows it |
| Bodyparts.Script | scripts/bodyparts.py:114-156 | the script end to end collects `ScriptOutput` |
| Formatters.AddStrInt | docs/formatters.js:7-9 | the counter is never empty text |
| Formatters.AddStrIntShift | docs/formatters.js:7-9 | on a counter written by `toString`, adding shifts the number it holds, and it reads back as that number |
| Formatters.AddStrIntInverse | docs/formatters.js:7-9 | adding `num` then `-num` gives the counter back |
| Formatters.AddStrIntNaN | docs/formatters.js:7-9 | once the counter reads "NaN" it stays so |
| Formatters.TrimAll | docs/formatters.js:18 | each piece trimmed, in place |
| Formatters.ParseCommaList | docs/formatters.js:16-19 | every item is non-empty, comma-free and has no space at either end |
| Formatters.TrimmedItems | docs/formatters.js:17-18 | trimming comma-free pieces and dropping the empty ones leaves clean items |
| Formatters.TrimInside | docs/formatters.js:18 | trimming only removes characters |
| Formatters.ParseCommaListJoin | docs/formatters.js:16-19 | a list of clean tags joined with commas reads back as the list, the empty list included |
| Formatters.ParseCommaListJoinSome | docs/formatters.js:16-19 | the same for a non-empty list |
| Formatters.ParseCommaListOf | docs/formatters.js:16-19 | a text whose pieces are already clean reads as those pieces |
| Formatters.ParseCommaListEmpty | docs/formatters.js:16-19 | the empty text is the empty list |
| Formatters.TrimAllClean | docs/formatters.js:18 | trimming leaves clean tags alone |
| Formatters.ParseCommaListOrder | docs/formatters.js:16-19 | every non-empty trimmed piece is in the result |
| Formatters.FormatNumberSigned | docs/formatters.js:25-27 | a "+" leads exactly when the number is not negative |
| Formatters.FormatNumberSignedParse | docs/formatters.js:25-27 | the signed form reads back as the number |
| Formatters.FormatNumberSignedChars | docs/formatters.js:25-27 | the signed form holds no line break |
| Formatters.LinesJoin | docs/formatters.js:33-38 | one line per item, each after a newline: the items joined with newlines after an empty first line |
| Formatters.LinesSplit | docs/formatters.js:33-38 | the text splits back into an empty first line and the items, in order |
| Formatters.SectionSplit | docs/formatters.js:102-103 | a section added under a text: the text's lines, an empty line, then the items |
| Formatters.LinesAppend | docs/formatters.js:105-112 | the lines of two runs one after the other are the lines of both |
| Formatters.SkillEntries | docs/formatters.js:35-36 | one "name: +n" entry per skill, in iteration order |
| Formatters.SkillEntriesOneLine | docs/formatters.js:35-36 | no entry breaks a line when no name does |
| Formatters.SkillsDesc | docs/formatters.js:33-38 | the loop yields one line per skill entry |
| Formatters.DisabledEntries | docs/formatters.js:65-67 | one "X disabled" entry per work type |
| Formatters.DisabledWorkDesc | docs/formatters.js:63-69 | the loop yields one line per disabled work type |
| Formatters.DisabledEntriesOneLine | docs/formatters.js:65-67 | no entry breaks a line when no work type does |
| Formatters.Prefixed | docs/formatters.js:76-89 | one entry per item, the item after its prefix: "- X" per meditation type, "Forced trait: X" per required trait |
| Formatters.PrefixedOneLine | docs/formatters.js:76-89 | no entry breaks a line when neither the prefix nor an item does |
| Formatters.MeditationTypesDesc | docs/formatters.js:86-91 | the header line, then one line per type |
| Formatters.MeditationOneLine | docs/formatters.js:86-91 | no line of the meditation text breaks |
| Formatters.MeditationHeaderFirst | docs/formatters.js:86-91 | the text always opens with its header line, even for no types |
| Formatters.SectionLines | docs/formatters.js:102-103 | a present section adds an empty line and its items after the text; an absent one adds nothing |
| Formatters.SectionExtends | docs/formatters.js:101-117 | a section only adds after the text |
| Formatters.SkillEntriesLines | docs/formatters.js:35-36 | skill entries are single lines when the names are |
| Formatters.GeneDescription | docs/formatters.js:100-120 | the gene tooltip starts with the gene's own text, or with nothing when it has none |
| Formatters.BuildGeneDescription | docs/formatters.js:100-120 | the gene tooltip is built part by part as `GeneDescription` |
| Formatters.StatsText | docs/formatters.js:105-112 | the three stat maps are one section of all their lines |
| Formatters.GeneLines | docs/formatters.js:100-120 | the gene tooltip's lines: its text, then for each present part an empty line and that part's lines |
| Formatters.BackstorySkillsDropped | docs/formatters.js:127-128 | as written, a backstory with a skill gain shows only its text; the intended description adds the skill |
| Formatters.SkillOnlyAsWritten | docs/formatters.js:125-132 | the as-written tooltip of that backstory is just "d" |
| Formatters.SkillOnlyIntended | docs/formatters.js:125-132 | the intended tooltip of that backstory ends with the skill line |
| Formatters.OneSkillLine | docs/formatters.js:33-38 | one skill with a one-digit gain is one line "name: +n" |
| Formatters.BuildBackstoryDescription | docs/formatters.js:125-132 | the tooltip as built, whose skills test reads the object's undefined `length`, is `BackstoryDescriptionAsWritten` |
| Formatters.BackstoryLines | docs/formatters.js:125-132 | the backstory tooltip's lines: its text, the skills and the disabled work, each present section after an empty line |
| Formatters.BackstoryDescriptionAsWritten | docs/formatters.js:125-132 | as written, the backstory tooltip is the intended tooltip of the same backstory without its skills, whatever they are |
| Formatters.BackstoryDescription | docs/formatters.js:125-132 | the backstory tooltip as intended starts with the backstory's own text, or with nothing when it has none |
| Formatters.DegreeSkillsDropped | docs/formatters.js:140-141 | as written, a degree whose only extra is a skill gain shows only its text |
| Formatters.BuildTraitDegreeDescription | docs/formatters.js:138-147 | the degree tooltip as built, with the same skills test, is `DegreeDescriptionAsWritten` |
| Formatters.DegreeDescriptionAsWritten | docs/formatters.js:138-147 | as written, the degree tooltip is the intended tooltip of the degree without its skills |
| Formatters.DegreeDescription | docs/formatters.js:138-147 | the degree tooltip as intended starts with the degree's own text, or with nothing when it has none |
| Formatters.DegreeLines | docs/formatters.js:138-147 | the degree tooltip's lines: its text, the skills, the meditation header and types, then the trait's disabled work |
| Rgba.Opaque | docs/rgba.js:6-8 | the constructor keeps the three channels and defaults the alpha to 1 |
| Rgba.Channel | docs/rgba.js:11 | a channel is padded to at least two characters |
| Rgba.AsHex | docs/rgba.js:10-12 | the hex form starts with "#" and is at least seven characters long |
| Rgba.DigitCharHex | docs/rgba.js:11 | `toString(16)` writes lower-case hex digits |
| Rgba.ChannelSmall | docs/rgba.js:11 | a channel below 16 is padded with one "0" |
| Rgba.ChannelLarge | docs/rgba.js:11 | a channel from 16 to 255 is its two hex digits |
| Rgba.ChannelByte | docs/rgba.js:11 | a byte channel is exactly two hex digits, the high one first |
| Rgba.ChannelPair | docs/rgba.js:11 | a byte channel is a pair of lower-case hex digits |
| Rgba.UnsignedTwoDigits | docs/rgba.js:40-42 | `parseInt` in radix 16 reads both digits of a pair |
| Rgba.ParseTwoDigits | docs/rgba.js:40-42 | a pair of hex digits reads as the number it spells |
| Rgba.ParseByteDigits | docs/rgba.js:40-42 | the two digits of a byte read back as the byte |
| Rgba.ParseHexPair | docs/rgba.js:11-42 | what a byte channel is written as reads back as that byte |
| Rgba.AsHexShape | docs/rgba.js:10-12 | a colour with byte channels is "#" and six lower-case hex digits, two per channel, and the alpha is not written |
| Rgba.FromDigits | docs/rgba.js:39-49 | six digits give an opaque colour, eight give the fourth byte as alpha, any other length is the error "Invalid color hex string" |
| Rgba.FromHex | docs/rgba.js:37-50 | a text reads as a colour exactly when six or eight characters are left once it is cleaned, opaque for six; any other length is the error "Invalid color hex string" |
| Rgba.CleanedHexDigits | docs/rgba.js:38 | hex digits after a "#" are what is left once the text is cleaned |
| Rgba.HexAtSlice | docs/rgba.js:40-47 | the byte at `i` is read from the two characters there |
| Rgba.FromDigitsOpaque | docs/rgba.js:39-42 | six digits read as an opaque colour of the three pairs |
| Rgba.FromDigitsAlpha | docs/rgba.js:43-47 | eight digits read with the fourth pair as alpha |
| Rgba.CleanedThree | docs/rgba.js:38 | "#" and three pairs clean to the pairs |
| Rgba.CleanedFour | docs/rgba.js:38 | "#" and four pairs clean to the pairs |
| Rgba.FromHexThree | docs/rgba.js:37-50 | three hex pairs after a "#" read as an opaque colour of what each pair spells |
| Rgba.FromHexFour | docs/rgba.js:37-50 | four hex pairs read as a colour whose alpha is what the fourth pair spells |
| Rgba.FromHexAsHex | docs/rgba.js:10-50 | reading back what `asHex` wrote gives the colour again, made opaque |
| Rgba.FromHexAlpha | docs/rgba.js:10-50 | the hex form with a fourth byte appended reads back with that byte as alpha |
| Rgba.ToJSON | docs/rgba.js:1-8 | the saved form of a colour always holds its alpha |
| Rgba.FromJSON | docs/rgba.js:55-57 | the alpha read is never 0; a saved non-zero alpha is kept |
| Rgba.PageFromJSON | page/main.js:170-172 | a saved alpha is kept whatever it is; a missing one is 1 |
| Rgba.FromJSONRoundTrip | docs/rgba.js:55-57 | a saved colour reads back unchanged unless it is fully transparent |
| Rgba.FromJSONDropsZeroAlpha | docs/rgba.js:56 | a fully transparent colour is saved and comes back opaque |
| Rgba.PageFromJSONRoundTrip | page/main.js:170-172 | with the `in` test every saved colour reads back unchanged |
| Builder.AnyMatch | docs/main.js:98-100 | `anyMatch` is true exactly when the two lists share an element |
| Builder.AnyMatchSymmetric | docs/main.js:98-100 | which list is scanned does not matter |
| Builder.FirstIndex | docs/main.js:127 | the position `find` stops at: no entry before it has the name, and the entry there has it unless it is past the end |
| Builder.Find | docs/main.js:127 | `find` gives nothing exactly when no entry has the name, and otherwise an entry of the table with that name; which one is `FindFirst` |
| Builder.FindFirst | docs/main.js:127 | `find` returns the first entry with the name, the one at `FirstIndex`, and nothing when no entry has it |
| Builder.StatsKnown | docs/main.js:124-137 | the totals fail exactly when some gene name is missing from the table |
| Builder.StatsStop | docs/main.js:124-137 | once a name is missing, the whole sum fails the same way |
| Builder.StatsNext | docs/main.js:127-129 | a known gene adds its complexity and metabolism, 0 for a missing field |
| Builder.StatsUnknown | docs/main.js:127-129 | an unknown gene makes the sum fail, naming it |
| Builder.StatsAppend | docs/main.js:124-137 | the totals of two lists of known genes add up |
| Builder.StatsPartsKnown | docs/main.js:124-137 | a list of names is known when both of its parts are |
| Builder.StatsSwap | docs/main.js:124-137 | moving genes between the endogenes and the xenogenes leaves the totals unchanged |
| Builder.TallyOne | docs/main.js:127-129 | one pass adds the named gene's complexity and metabolism, extending the totals by one name, or fails as the whole sum does when the name has no gene |
| Builder.Tally | docs/main.js:126-130 | one loop of `stats()` adds its names to the running totals, or fails as the whole sum does |
| Builder.Stats | docs/main.js:124-137 | `stats()` is the sum over the endogenes, then the xenogenes |
| Builder.FoodPercent | docs/main.js:376 | the food need is at least 50%, 100% at zero metabolism, 50% exactly from metabolism 5 up, and 25 points more per point below zero |
| Builder.FoodNonIncreasing | docs/main.js:376 | more metabolism never needs more food |
| Builder.TotalNaN | docs/main.js:167-170 | a sum is NaN exactly when one of its terms is |
| Builder.TotalBounds | docs/main.js:167-173 | a sum of terms between `lo` and `hi` lies between `n * lo` and `n * hi` |
| Builder.TotalShift | docs/main.js:171-173 | raising one skill's term by `d` raises the sum by `d` for each time it is added |
| Builder.ConstructionOnce | docs/main.js:167-170 | Construction is added once among the twelve skills |
| Builder.TotalFlames | docs/main.js:171-173 | the twelve flames as intended always add up to a number |
| Builder.TotalFlamesAsWritten | docs/main.js:171-173 | as written, `totalFlames` is NaN exactly when the construction points are, and otherwise exceeds the intended total by the construction points minus the construction flames |
| Builder.FlamesCountConstructionPoints | docs/main.js:171-173 | a pawn with eight construction points and no passion counts eight flames as written, and none as intended |
| Builder.FlamesBounded | docs/main.js:171-173 | with every passion from 0 to 2, the intended total is a number from 0 to 24 |
| Builder.SkillIndex | docs/main.js:141-152 | every skill is one of the twelve |
| Builder.TotalPoints | docs/main.js:167-170 | the points add up to NaN exactly when one skill's points could not be read |
| Builder.NextPassion | docs/main.js:902 | the passion click cycles 0, 1, 2, 0 |
| Builder.PassionCycle | docs/main.js:902 | three clicks bring a passion back to where it was |
| Builder.FirstBanned | docs/main.js:44-47 | nothing is found exactly when the pawn has no banned gene; otherwise the first banned gene in the rules' order that it has |
| Builder.VerdictFor | docs/main.js:44-54 | for given point and flame totals, the checks in order give "" exactly when no banned gene is held and neither the points nor that total exceeds its limit |
| Builder.Verdict | docs/main.js:41-55 | the verdict is "" exactly when no banned gene is held, the points are within their limit and `totalFlames` as written, construction points included, is within its limit |
| Builder.VerdictIntended | docs/main.js:41-55 | the verdict as evidently meant is "" exactly when no banned gene is held and neither the points nor the twelve flames exceed their limits |
| Builder.VerdictsDiffer | docs/main.js:50-53 | the two verdicts differ only at the flame check, when exactly one of the two flame totals is over the limit; they agree whenever the construction points equal the construction flames |
| Builder.FlamesOnlyOver | docs/main.js:50-54 | when only the as-written flame total is over the limit, the pawn is rejected for its flames as written and accepted as intended |
| Builder.VerdictCountsConstruction | docs/main.js:52-53 | with a flame limit of 0, a pawn with eight construction points and no passion is rejected for its flames as written and accepted as intended |
| Builder.VerdictBannedFirst | docs/main.js:44-47 | a banned gene is reported before any skill limit, the first one in the list named |
| Builder.Verify | docs/main.js:41-55 | the loop returns `Verdict`, whose flame check uses `totalFlames` as written |
| Builder.IndexOf | docs/main.js:557 | `indexOf` is -1 exactly when the element is absent, and otherwise its first index |
| Builder.RemoveOnePresent | docs/main.js:557-561 | splicing out a present element takes away exactly one copy of it |
| Builder.RemoveAppended | docs/main.js:524-561 | removing an element just appended, and absent before, gives the list back |
| Builder.RemoveAbsent | docs/main.js:557-561 | an absent element has index -1, and `splice(-1, 1)` removes the last element instead |
| Builder.Checked | docs/main.js:523-526 | checking a gene adds exactly that name to the genes held, and nothing else |
| Builder.CheckUncheck | docs/main.js:521-562 | checking then clearing a gene the list did not hold restores the genotype |
| Builder.CheckUncheckGenes | docs/main.js:521-562 | checking then clearing any gene restores the genes held, as a multiset |
| Builder.NewBox | docs/main.js:392 | a new box has no conflicts and is enabled |
| Builder.SetAll | docs/main.js:471-487 | `setConflicts` leaves as many boxes |
| Builder.UnsetAll | docs/main.js:489-505 | `unsetConflicts` leaves as many boxes |
| Builder.SetAllAt | docs/main.js:471-487 | each box other than the own box and in conflict gains a conflict and is disabled; every other box is unchanged |
| Builder.UnsetAllAt | docs/main.js:489-505 | each box touched loses a conflict, enabled when its counter reads "0"; every other box is unchanged |
| Builder.ConflictedTallied | docs/main.js:478-485 | a box counting `n` conflicts counts `n + 1` after one more, and is disabled |
| Builder.ReleasedTallied | docs/main.js:496-499 | a box counting `n >= 1` counts `n - 1` after one fewer, disabled exactly when that is above 0 |
| Builder.ReleaseUndoes | docs/main.js:471-505 | releasing a box right after conflicting it gives the box back |
| Builder.SetKeepsTally | docs/main.js:471-487 | `setConflicts` raises the tally of a touched box by one and keeps the others |
| Builder.UnsetKeepsTally | docs/main.js:489-505 | `unsetConflicts` lowers the tally of a touched box by one and keeps the others |
| Builder.SetKeepsTallies | docs/main.js:471-487 | every box stays tallied, and each touched box counts one more |
| Builder.UnsetKeepsTallies | docs/main.js:489-505 | every box stays tallied, and each touched box counts one fewer |
| Builder.UnsetUndoesSet | docs/main.js:471-505 | clearing a box right after checking it leaves every box as it was |
| Builder.LastIndexOf | docs/main.js:288 | `lastIndexOf` is -1 exactly when the character is absent, and otherwise an index holding it with no occurrence after it: the last one |
| Builder.LastIndexOfSkip | docs/main.js:288 | text after the last occurrence does not move it |
| Builder.TraitOfDegree | docs/main.js:288-308 | the trait name is read back from a degree's value when the degree key has no ":" |
| Builder.TraitConflict | docs/main.js:285-294 | `hasConflict` of the traits dialog is true exactly when the two share an exclusion tag or a conflicting trait, either names the other's trait as conflicting, or both are degrees of one trait |
| Builder.SameTraitConflicts | docs/main.js:285-293 | two degrees of one trait always conflict |
| Builder.TraitConflictSymmetric | docs/main.js:285-314 | with clean tags, trait conflicts go both ways |
| Builder.GeneConflict | docs/main.js:430-433 | `hasConflict` of the gene list is true exactly when the gene and the box share an exclusion tag |
| Builder.SetTraitConflicts | docs/main.js:318-328 | the loop over the dialog's boxes yields `SetAll` |
| Builder.UnsetTraitConflicts | docs/main.js:330-341 | the loop yields `UnsetAll` |
| Builder.GeneConflictSymmetric | docs/main.js:386-433 | with clean tags, gene conflicts go both ways |
| Builder.SetGeneConflicts | docs/main.js:471-487 | the loop over the gene list's boxes yields `SetAll` |
| Builder.UnsetGeneConflicts | docs/main.js:489-505 | the loop yields `UnsetAll` |
| Builder.KeyIndex | docs/main.js:406 | `get` finds nothing exactly when no category has the name, and otherwise a list under that name |
| Builder.InCategoryNone | docs/main.js:404-411 | a category no gene belongs to holds no gene |
| Builder.InsertNewLists | docs/main.js:407-408 | a new category's list holds the new gene alone, and the old lists keep their genes |
| Builder.InsertNewCovers | docs/main.js:407-408 | after a new category, every gene's category is still found |
| Builder.InsertNew | docs/main.js:407-408 | setting a new category keeps the grouping well formed |
| Builder.InsertOld | docs/main.js:409-410 | pushing onto an existing category keeps the grouping well formed |
| Builder.GroupedWell | docs/main.js:403-411 | the category names are distinct, every gene's category is one of them, and each list holds exactly its genes, in table order |
| Builder.GroupByCategory | docs/main.js:403-411 | the grouping loop yields `Grouped` |
| Builder.WithBio | docs/main.js:859-865 | after setting the biological age, the chronological age is raised to meet it if it was below, and is otherwise unchanged |
| Builder.WithChron | docs/main.js:866-872 | after setting the chronological age, the biological age is lowered to meet it if it was above, and is otherwise unchanged |
| Builder.Pawn.OnBioAgeChange | docs/main.js:859-865 | the ages become `WithBio` of the years read times the ticks per year; the text is copied across exactly when the other age moved |
| Builder.Pawn.OnChronAgeChange | docs/main.js:866-872 | the ages become `WithChron` of the years read; the text is copied across exactly when the other age moved |
| Builder.Pawn.OnSkillChange | docs/main.js:881-883 | only that skill's points change, to the number read |
| Builder.Pawn.OnPassionClick | docs/main.js:900-904 | only that skill's flames change, to the next passion |
| Builder.Pawn.OnTraitChange | docs/main.js:343-351 | checking records the degree and runs `setConflicts`; clearing removes the trait and runs `unsetConflicts` |
| Builder.Pawn.OnGeneChange | docs/main.js:521-578 | checking files the gene by kind and runs `setConflicts`; clearing splices it out and runs `unsetConflicts` |
| Page.AnyMatchLoop | page/main.js:52-58 | the loop returns true exactly when the two lists share an element, as the documentation site's `anyMatch` does |
| Page.XenoToggle | page/main.js:590-600 | checking appends the gene to the xenogenes and leaves the endogenes alone; clearing right after restores the genes held, and the very genotype when the gene was not held before |
| Page.XenoUncheckAbsent | page/main.js:599-600 | clearing a gene the xenogenes do not hold drops the last xenogene |
| Page.AgeReadsAgree | page/main.js:847-860 | on the decimal text of a whole number of years, `value * 3600000` gives that many years in ticks, the same age as the `parseInt` of the documentation site |
| Page.Pawn.OnBioAgeChange | page/main.js:847-853 | the ages become `WithBio` of the text read as a number times the ticks per year; the text is copied across exactly when the other age moved |
| Page.Pawn.OnChronAgeChange | page/main.js:854-860 | the ages become `WithChron` of the text read as a number; the text is copied across exactly when the other age moved |
| Page.Pawn.OnGeneChange | page/main.js:590-607 | checking appends the gene to the xenogenes whatever its kind and runs `setConflicts`; clearing splices it out of the xenogenes and runs `unsetConflicts` |
| Page.SumOfCounts | page/main.js:238-245 | a `+` chain whose terms are all numbers is the number sum of the documentation site |
| Page.SumText | page/main.js:238-245 | a `+` chain is text exactly when one of its terms is |
| Page.NumbersAt | page/main.js:211-237 | a skill's points that are a number are that number among the documentation site's skills, and its flames are the same |
| Page.PointsSum | page/main.js:238-241 | the twelve points added in order are text exactly when one skill's points are, and otherwise the documentation site's total |
| Page.FlamesSum | page/main.js:242-245 | the flame sum is text exactly when the construction points are, and otherwise the documentation site's total as written |
| Page.TotalPointsOf | page/main.js:238-241 | `totalPoints` is text as soon as one skill's points are text, and the documentation site's total while none is |
| Page.TotalFlamesOf | page/main.js:242-245 | `totalFlames` is text exactly when the construction points are, since they are its one term that is not a flame; otherwise it is the documentation site's total as written |
| Page.Verdict | page/main.js:16-30 | "" exactly when no banned gene is held and neither total, read as a number, exceeds its limit |
| Page.VerdictOfNumbers | page/main.js:16-30 | while every skill's points are numbers, the page's verdict is the documentation site's |
| Page.BeforeMedicine | page/main.js:238-240 | with only the medicine input changed, the nine skills before it add up to the number 0 |
| Page.MedicineSum | page/main.js:238-240 | with the medicine input changed to "5" and every other skill at 0, `totalPoints` is the text "0500" |
| Page.FiveHundred | page/main.js:25 | `>` reads the text "0500" as 500 |
| Page.PageRejectsMedicine | page/main.js:25-26 | that pawn's total reads as 500, so a limit of 60 points rejects it |
| Page.SiteAcceptsMedicine | docs/main.js:44-54 | the same pawn holding the number 5 passes a limit of 60 points |
| Page.MedicineReadsAsHundreds | page/main.js:899-901 | the page rejects the pawn whose medicine input reads "5", while the documentation site accepts the pawn holding 5 |
| Page.Pawn.OnSkillChange | page/main.js:872-904 | the input's text is stored as the skill's points, and every other skill and the flames are left alone |
| Text.SplitJoin | docs/formatters.js:17 | joining the pieces of a split with the same separator gives the text back |
| Text.JoinSplit | docs/main.js:313-314 | splitting comma-free items joined with commas gives the items back |
| Text.Trim | docs/formatters.js:18 | `trim` leaves no white space at either end and never lengthens the text |
| Text.JsParseShowInt | docs/formatters.js:8 | `Number.parseInt` reads back what `toString` writes for any integer |
| Text.JsNumberShowInt | page/main.js:848 | the `Number` of the decimal text of an integer is that integer |
| Text.PyIntShowInt | scripts/backstories.py:59 | Python's `int` reads back the decimal text of any integer |

## Left out

- File handling: command-line arguments, `input()`, the `rglob` directory walks, XML parsing, and the writing of the JSON, TS and JS files. The scripts are modelled from the parsed trees of the files they walk, in the walk's order, to the records they would write.
- Image work: `Image.open`, `paste` and `save` of scripts/graphics.py. A found file is modelled by its size and a paste by the offset it is pasted at. The order in which the walk finds files is a parameter.
- `graphicsSearch` is a set, so the order in which the atlas receives its names is a parameter: `Genes.GeneScript.BuildAtlas` takes the list.
- Floating point. `float(t)` and `int(float(t) * 255)` are kept as the text they read, not as numbers (`Records.Real`, `Records.Scaled`). This covers the float branch of `parseColor`, `parseFloatList`, the stat maps, `beardOffsetXEast`, melanin and commonality. A text that `float` would reject is not detected.
- `Bodyparts.ParseFloatList`: does not fail on a piece that is not a number, because `float` is not modelled.
- `math.sqrt` is replaced by the exact integer square root; rounding of the floating-point root for very large tile counts is not modelled.
- Python `int` accepts digit-group underscores and Unicode digits. `Text.PyInt` models sign, digits and surrounding white space only.
- `RGBA.asHSV`, the `colorizer` SVG filters, `statFactorDesc` (it multiplies fractions by 100) and `buildGeneImageStyle` are not modelled. A gene tooltip takes its stat lines as given (`Formatters.GeneText`).
- `requiredTraitDesc` looks labels up in the global traits table. The labels are a parameter of the gene tooltip.
- Randomness: `pickRandom`, `pickRandomWeighted`, and the random ages, colours, backstories and genes of the `Pawn` constructors. The docs constructor draws the childhood from the adulthoods and the adulthood from the childhoods (docs/main.js:189-190); being random, that is not modelled either.
- The DOM: labels, styles, `selectedGenesDiv`, the scroll handler, dialogs and alerts. A checkbox is modelled as its attributes, its counter and its `disabled` flag.
- Side effects of checking a gene that touch only the DOM and the pawn's looks are not modelled: skin colour, skin override, melanin, hair colour and body type (docs/main.js:528-550, 564-572). Clearing a skin-override gene re-enables the hair colour picker where the skin colour picker was disabled (docs/main.js:539, 565); that too is DOM only.
- `updateGeneStats` writes labels only. Its arithmetic is `Builder.Stats`, `Builder.FoodPercent` and `Formatters.FormatNumberSigned`.
- The sort of each category by `displayOrder` (docs/main.js:438) changes only the order in which boxes are drawn. It is not modelled.
- The `postBuildCallbacks` that re-run `setConflicts` for genes and traits already held at load time are not modelled. Each of them is one `setConflicts` call.
- `Pawn.fromJSON`, `save`, `localStorage`, `fetch` and the server (`src/`) are not part of this model. `Rgba.FromJSON` and `Rgba.PageFromJSON` model the colour part of `fromJSON`.
- The rules' `minMetabolism`, `maxComplexity` and `bannedTraits` are never read by `verify`, so they are not fields of `Builder.Ruleset`. Limits are integers or `Infinity`; a fractional limit is not modelled.
- Skill points on the documentation site are numbers, because its handlers store `parseInt` of the input (`Builder.Pawn.OnSkillChange`). The page's handlers store the input's text, and `Page.PageSkills` models the page's points as a number or text. Passions have no handler on either page.
- `Text.JsNumber`: reads integers only. `Number` of a text with a fraction or an exponent, such as "20.5" or "1e1", is a number in JavaScript but NaN in the model, because `JsNum` holds integers. This affects `Page.PointValue`: a skill total such as "2.5" is read as NaN, which never exceeds a limit.
- `Page.Pawn.OnBioAgeChange`: an age input with a fraction or an exponent reads as NaN in the model, so its tick age is NaN and the other age is not adjusted. In JavaScript it is a number, and the other age follows it when they cross.
- `Page.Pawn.OnChronAgeChange`: the same as `Page.Pawn.OnBioAgeChange`, for the chronological age.
- `Builder.WithBio`, `Builder.WithChron`: when an age reads as NaN, `tickAgeChron < tickAgeBio` is false and neither age is adjusted. `Ordered` then holds vacuously, and the order of the two ages is stated only for numeric ages.
- In page/main.js, `Ruleset.verify`, `Genotype`, `addStrInt`, `parseCommaList` and `RGBA.fromHex` are the same code as in docs/main.js, docs/formatters.js and docs/rgba.js (page/main.js:16-30, 66-78, 153-168). They are modelled once, by the `Builder`, `Formatters` and `Rgba` members. The page's `Skills` sums (page/main.js:238-245) are the same code too. Its `totalFlames` also adds `this.Construction`, and `Page.TotalFlamesOf` reduces to `Builder.TotalFlamesAsWritten`. They are modelled in `Page` because the page's points can be text.
- Loading a saved pawn on the page (`new Skills(obj.skills)`, page/main.js:311) is not part of this model. The page's skills start at 0 and change only through the skill inputs.
- `page/main.js` `Genotype.stats` and the gene-list grouping match the documentation site's and are not repeated in `Page`.

## Findings

| source | as written | input that shows it | evidently intended | confidence | as-written member | corrected member |
|---|---|---|---|---|---|---|
| docs/main.js:171-173 | `totalFlames` adds `this.Construction`, the construction skill points, where every other term is a `...Flames` field | a pawn with 8 construction points and no passion: 8 flames as written, so a ruleset with `maxFlames` 0 rejects it | add `ConstructionFlames`, so the total is the sum of the twelve passions (0 to 24) | high, not executed | Builder.TotalFlamesAsWritten, Builder.Verdict, Builder.VerdictCountsConstruction | Builder.TotalFlames, Builder.FlamesBounded, Builder.VerdictIntended |
| docs/formatters.js:127-128 | `backstory.skills.length > 0` on the skills object the export writes as a dict; `length` is undefined, so the test is always false | a backstory with description "d" and skill gain Shooting +3: the tooltip is "d" alone | show the skills section whenever the object has an entry | high, not executed | Formatters.BuildBackstoryDescription, Formatters.BackstoryDescriptionAsWritten, Formatters.SkillOnlyAsWritten | Formatters.BackstoryDescription, Formatters.BackstoryLines, Formatters.SkillOnlyIntended |
| docs/formatters.js:140-141 | the same `.length` test on a trait degree's skills object | a degree with description "d" and skill gain Social +2: the tooltip is "d" alone | show the degree's skill gains | high, not executed | Formatters.BuildTraitDegreeDescription, Formatters.DegreeDescriptionAsWritten, Formatters.DegreeSkillsDropped | Formatters.DegreeDescription, Formatters.DegreeLines |
| scripts/traits.py:97-105 | the `exclusionTags` items are appended to `conflictingTraits`, and the `conflictingPassions` items to `forcedFlames` | a trait with exclusion tag "Drugs" and conflicting passion "Shooting": exported with `conflictingTraits` ["Drugs"], `forcedFlames` ["Shooting"], and both lists meant for them empty | each group's items in its own list | high, not executed | Traits.TraitExport, Traits.TraitOf, Traits.ListsAsWrittenMisfile | Traits.TraitExportIntended, Traits.TraitIntended, Traits.GroupsOf |
| scripts/backstories.py:17-18 | `cleanDescription` ends its `return` expression with a comma, so it returns a one-element tuple | any backstory, for example `baseDesc` "d": its `desc` is exported as ["d"], not "d" | return the cleaned string | high, not executed | Backstories.BackstoryOf, Backstories.ExportedDesc, Backstories.DescAsWrittenWraps | Backstories.BackstoryIntended, Backstories.Desc, Backstories.DescPlain |
| page/main.js:872-904 | the skill inputs' `change` handlers store `ev.target.value`, a string, so `totalPoints` concatenates the points as text, and `>` then reads the text as a number | every skill at 0 and the medicine input changed to "5": `totalPoints()` is "0500", read as 500, so a limit of 60 points rejects a pawn with 5 points | store the number, as the documentation site's `parseInt` handlers do (docs/main.js:880-881) | high, not executed | Page.Pawn.OnSkillChange, Page.MedicineSum, Page.MedicineReadsAsHundreds | Builder.Pawn.OnSkillChange, Page.VerdictOfNumbers |

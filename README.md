# Bucket plugin: a Dafny model of the mention callback

The bucket plugin of the seabird IRC bot imitates xkcd-Bucket. Every message
that mentions the bot goes through `bucketPlugin.mentionCallback`. The
callback tries a list of case-insensitive regular expressions in a fixed
order, and the first one that matches decides what happens. Most branches
work on two keyed collections in the bot's database:

- `facts` maps a lower-cased key to a list of responses. Each response has a
  text, a creator and a verb.
- `vars` maps a lower-cased name to a list of values and the name of the
  variable's creator.

Teaching `K is T` (or `K are T`, or `K <verb> T`) adds a response to the
fact. `forget K is T` removes the first matching response. The `add value`,
`create var` and `remove var` commands manage variables, and `list var`
shows them. `render T` expands `$name` references through the variables,
and `literal K` shows a stored fact. Everything else matches a branch with
an empty body, or matches nothing.

The model has five modules:

- `Text` models characters as the expressions see them. It covers Go's
  `(?i)` folding, including the Kelvin sign and the long s, which fold to
  'k' and 's'. It also covers `\w` under that flag, the `.` class, and
  `strings.ToLower` on keys.
- `Grammar` has one matcher per regular expression. `StatementMatch`
  models `^(.+?) (is|is also|are|<\w+>) (.+)$` with Go's leftmost-first
  choice: the shortest key that admits a match, then the first alternative
  of the verb that fits. `Classify` is the `if`/`else if` chain, in source
  order, with the OP guards of `create var` and `remove var`. The lemmas
  prove how overlapping patterns shadow each other.
- `Bucket` holds:
  - the stored entities;
  - the verb normalisation;
  - the splice of the forget-is loop, and the methods for the two loops of
    the callback;
  - `os.Expand` with the render callback;
  - the transactions as functions on maps;
  - one call of the callback as the transition `Step`.
- `Laws` states what each branch does to the collections and what it
  replies. It also covers pairs of calls, such as teaching a fact and then
  forgetting it, and invariants that every call keeps.
- `Plugin` models the plugin object as a class. The class has `facts` and
  `vars` as map fields. Its methods mirror the read-modify-write
  transactions of the source, each proved against the transaction
  function. `MentionCallback` is proved equal to `Step`.

The random draw of `render` is the parameter `rng`, and the OP flag is an
input of the message.

Where the design intent and the code differ, the model follows the code:

- `literal[N] K` ignores the index. It replies with the whole stored fact,
  or with an empty one when the key is missing.
- `undo`, `merge`, `alias`, `lookup`, plain `forget`, `what was that`,
  `list vars`, `remove value` and both inventory commands match and do
  nothing. So does a message that matches no pattern.
- A `create var` or `remove var` from a sender without the OP flag is not
  refused. The chain goes on to the later patterns and ends in the
  fallback, which does nothing (`Grammar.CreateVarNeedsOp`,
  `Laws.VarCommandsNeedOp`).
- forget-is always writes the fact back, even for a key that held nothing
  (`Laws.ForgetWritesBack`).
- `list var` puts ", " before every value, the first one too. The loop's
  `first` flag is never set (`Laws.ListVarLeadingSeparator`).
- The verb is never "is also", because `is` is tried first
  (`Grammar.VerbNeverIsAlso`). So `K is also T` stores the verb "is" with
  the text "also T" (`Grammar.IsAlsoCapturedAsIs`), and the normalisation of
  "is also" is never reached.
- The statement pattern comes before `render`. So `render a is b` teaches
  the fact `render a` (`Grammar.StatementBeforeRender`).
- `render` looks variables up by the name as written, without
  lower-casing it. Since stored names are lower-cased, a reference with a
  capital letter always expands to "" (`Bucket.CapitalizedReferenceIsEmpty`).

## Model

| member | source | states |
|---|---|---|
| Text.Fold | plugin.go:24-48 | folding sends exactly the ASCII letters, the Kelvin sign and the long s to a lower-case ASCII letter, fixes every other character, and keeps `\w` membership |
| Text.Span | plugin.go:37-41 | the run of class characters at the start of a string is the longest one: all characters before it are in the class, the next one is not |
| Text.LowerIdempotent | plugin.go:178 | lower-casing a key that is already lower-cased changes nothing |
| Text.UpperNotLowered | plugin.go:363 | a name with an ASCII capital is not its own lower-cased form |
| Text.Lower | plugin.go:155-328 | `strings.ToLower` on keys keeps the length, keeps every character matching the same pattern letters under `(?i)`, and leaves no ASCII capital or Kelvin sign; `Text.LowerIdempotent` and `Text.UpperNotLowered` state what stored keys rely on |
| Grammar.CustomVerbLen | plugin.go:48 | a positive length is that of a `<\w+>` token of at least three characters |
| Grammar.VerbLen | plugin.go:48 | a positive length marks a verb alternative that is followed by a space and a non-empty text |
| Grammar.KeyLength | plugin.go:48 | the lazy key: no shorter key splits the line, and the key found does split it |
| Grammar.StatementMatch | plugin.go:29-48 | the statement pattern; what it matches is stated by `Grammar.StatementCaptures`, `Grammar.StatementShortestKey` and `Grammar.StatementRoundTrip` |
| Grammar.StatementCaptures | plugin.go:48 | a statement match reassembles to the line as key, space, verb, space, text, with a non-empty key and text and a verb alternative |
| Grammar.StatementShortestKey | plugin.go:48 | whenever any key length splits a one-line message, a match exists and its key is no longer |
| Grammar.VerbNeverIsAlso | plugin.go:29 | the captured verb is never "is also" in any case |
| Grammar.VerbLenOf | plugin.go:48 | at a position holding a verb alternative other than "is also" followed by a text, the verb read is exactly that alternative |
| Grammar.StatementRoundTrip | plugin.go:48 | matching `K V T` gives back exactly K, V and T whenever K has no space or newline, V is a verb alternative other than "is also", and T is one non-empty line |
| Grammar.IsAlsoCapturedAsIs | plugin.go:48 | `K is also T` is read as verb "is" with text "also T" |
| Grammar.LiteralMatch | plugin.go:24 | `^literal(?:\[(\d+)\])? (.*)$`; what it reads is stated by `Grammar.LiteralIndexedMatch` and `Grammar.LiteralPlainRead` |
| Grammar.LineAfter | plugin.go:25-47 | `^p(.*)$` for the keyword prefixes; used by lookup, forget and render, stated through `Grammar.RenderWithoutStatement` |
| Grammar.ArrowAfter | plugin.go:26-27 | `^merge (.*) [-=]> (.*)$` and the alias pattern; what it excludes is stated through `Grammar.CoreWordKeywordsMiss` |
| Grammar.WordAfter | plugin.go:37-41 | `^p(\w+)$` for list var, create var and remove var; stated through `Grammar.ListVarRead` and `Grammar.CreateVarNeedsOp` |
| Grammar.WordAndText | plugin.go:38-39 | `^p(\w+) (.*)$` for remove value and add value; stated through `Grammar.AddValueRead` |
| Grammar.Classify | plugin.go:149-373 | every verdict of the chain carries a verb that the normalisation accepts |
| Grammar.CoreCommand | plugin.go:149-217 | every command of the first group carries a verb the normalisation accepts |
| Grammar.VariableCommand | plugin.go:218-320 | the variable group yields only variable commands; create var or remove var only with the OP flag, and then for a message that begins with `create var ` or `remove var ` and with the name that follows |
| Grammar.InventoryCommand | plugin.go:321-322 | the inventory group yields only the full or the plain inventory; which phrases reach them is stated by `Grammar.InventoryRead` |
| Grammar.CorePassesOver | plugin.go:149-217 | a message whose first letter starts none of the keywords literal, undo, merge, alias, lookup, forget and what is read by none of them |
| Grammar.InventoryPassesOver | plugin.go:321-322 | a message whose first letter starts none of the inventory keywords is no inventory command |
| Grammar.VerbTokenInitial | plugin.go:48 | a verb alternative begins with `<`, with "is" in some case, or with an a in some case |
| Grammar.KeyCoversPrefix | plugin.go:48 | in `K V T`, a pattern without a space begins the message only by beginning K |
| Grammar.KeyEndsAtSpace | plugin.go:48 | in `K V T`, a pattern whose first space is at i begins the message only when K has length i |
| Grammar.SecondWordNotVerb | plugin.go:25-44 | a keyword pattern whose second word begins with a letter no verb alternative begins with does not begin `K V T` |
| Grammar.KeyIsKeyword | plugin.go:26-30 | a one-word keyword followed by a space begins `K V T` only when K is that keyword |
| Grammar.KeyLacksKeyword | plugin.go:24 | a keyword without a space that does not begin K does not begin `K V T` |
| Grammar.CoreNone | plugin.go:149-217 | the first group reads nothing that begins with none of its patterns |
| Grammar.CoreLongKeywordsMiss | plugin.go:24-31 | literal, undo, undo last and what was that do not begin `K V T` unless K begins with "literal" |
| Grammar.CoreWordKeywordsMiss | plugin.go:26-30 | merge, alias, lookup and forget followed by a space begin `K V T` only when K is that keyword |
| Grammar.CoreSkipsStatement | plugin.go:149-217 | the first group does not read `K V T` for a key it does not claim |
| Grammar.VariableSkipsStatement | plugin.go:218-320 | no variable command reads `K V T`, whatever the OP flag |
| Grammar.InventorySkipsStatement | plugin.go:321-322 | no inventory command reads `K V T` |
| Grammar.GroupsSkipInventoryWord | plugin.go:149-320 | `inventory` and `detailed inventory`, in any case, are read by neither the first group nor the variable commands |
| Grammar.CoreSkipsListItem | plugin.go:149-217 | the first group reads nothing that begins with `list item` |
| Grammar.VariableSkipsListItem | plugin.go:218-320 | no variable command reads what begins with `list item` |
| Grammar.ChainStopsAtInventory | plugin.go:321-322 | proof step: past the first two groups, an inventory command ends the chain |
| Grammar.InventoryRead | plugin.go:321-322 | `detailed inventory` and `list item details` in any letter case classify as the full inventory, `inventory` and `list items` as the plain one, whatever the OP flag |
| Grammar.ChainStopsAtCore | plugin.go:149-217 | proof step: once the first group reads a message, the chain returns that verdict; it unfolds the chain for the lemmas below |
| Grammar.CoreBeforeForget | plugin.go:149-172 | a message beginning with `forget ` matches none of the patterns tried before forget-is |
| Grammar.CoreReadsForgetIs | plugin.go:173 | `forget R`, where R reads as a statement, is read by the first group as forget-is with R's captures |
| Grammar.ForgetIsRead | plugin.go:173 | with or without the OP flag, `forget R`, where R reads as a statement, is classified as forget-is with R's captures |
| Grammar.ForgetIsBeforeStatement | plugin.go:173 | `forget ` followed by any statement is forget-is, not a statement with a key starting "forget" |
| Grammar.ChainPastGroups | plugin.go:323-373 | proof step: once the three groups have passed, the statement pattern is tried, then render, then the fallback; it unfolds the chain for the lemmas below |
| Grammar.StatementClassified | plugin.go:323 | `K V T` is classified as the statement with exactly those captures, whatever the OP flag, when K is non-empty with no space or newline and is none of the keys the first group claims (a key beginning with "literal", or merge, alias, lookup or forget), V is a verb alternative other than "is also", and T is one non-empty line |
| Grammar.VariableSkipsRender | plugin.go:218-320 | no variable command reads a message beginning with `render ` |
| Grammar.RenderPassesGroups | plugin.go:149-322 | `render R` is read by none of the three groups |
| Grammar.StatementBeforeRender | plugin.go:323-358 | `render R` that also reads as a statement is classified as a statement |
| Grammar.RenderWithoutStatement | plugin.go:358 | a one-line `render R` that is no statement is classified as render with R |
| Grammar.NoVerbInWord | plugin.go:48 | no verb alternative starts inside a run of word characters that reaches the end of the line |
| Grammar.NoVerbAt | plugin.go:48 | no verb alternative starts at a character other than i, a or '<' |
| Grammar.NoStatementInVarCommand | plugin.go:48 | `create var W` and `remove var W` never read as statements |
| Grammar.VariableChain | plugin.go:218-373 | proof step: a message read by no other group, by no statement and by no render is the variable command or the fallback |
| Grammar.VariableReadsCreateVar | plugin.go:274 | the variable group reads `create var W` as create var W with the OP flag, and as nothing without it |
| Grammar.CreateVarChain | plugin.go:274 | `create var W` that is no statement is classified as create var W with the OP flag and as the fallback without it |
| Grammar.CreateVarNeedsOp | plugin.go:274 | `create var W` is create var W with the OP flag and the fallback without it |
| Grammar.VariableReadsRemoveVar | plugin.go:300 | the variable group reads `remove var W` as remove var W with the OP flag, and as nothing without it |
| Grammar.RemoveVarChain | plugin.go:300 | `remove var W` that is no statement is classified as remove var W with the OP flag and as the fallback without it |
| Grammar.RemoveVarNeedsOp | plugin.go:300 | `remove var W` is remove var W with the OP flag and the fallback without it |
| Grammar.LiteralPlainRead | plugin.go:149-155 | `literal K`, for one-line K (empty too), is classified as literal with no index and the key K, whatever the OP flag |
| Grammar.LiteralIndexedMatch | plugin.go:24 | the literal pattern takes `literal[N] K`, for digits N and one-line K, apart into exactly N and K |
| Grammar.LiteralIndexedRead | plugin.go:149-155 | `literal[N] K` is classified as literal with the index N and the key K, whatever the OP flag |
| Grammar.CoreSkipsAddValue | plugin.go:149-217 | the first group reads nothing that begins with `add value ` |
| Grammar.AddValueRead | plugin.go:242-246 | `add value W T`, for a word W and one-line T, is classified as add value of T to W, whatever the OP flag |
| Grammar.CoreSkipsListVar | plugin.go:149-217 | the first group reads nothing that begins with `list var ` |
| Grammar.ListVarRead | plugin.go:218-222 | `list var W`, for a word W, is classified as list var of W, whatever the OP flag |
| Bucket.FirstMatch | plugin.go:192-193 | the position found is the first response matching both text and verb, or the length when none does |
| Bucket.SpliceFirstMatch | plugin.go:192-198 | the loop reports a match exactly when some response matches, and leaves the list with the first match spliced out |
| Bucket.Forgotten | plugin.go:192-198 | the list without its first match; its properties are stated by `Bucket.ForgottenRemovesOne` and `Bucket.SpliceFirstMatch` |
| Bucket.Occurrences | plugin.go:192-198 | the number of responses matching both text and verb; stated through `Bucket.OccurrencesAppend` and `Bucket.OccurrencesPositive` |
| Bucket.FormatValues | plugin.go:229-236 | the buffer holds ", " and the text of each value, in order |
| Bucket.ListText | plugin.go:229-236 | the text the list var loop builds; `Bucket.FormatValues` is proved to build it, and `Bucket.ListTextAppend` and `Bucket.ListTextCons` state its shape |
| Bucket.NormalizedVerb | plugin.go:180-185 | every captured verb can be normalised; a bracketed verb loses exactly its brackets and is a word; any other captured verb is "is" or "are" in some case and is kept as typed |
| Bucket.NormalizeVerb | plugin.go:180-185 | the verb normalisation of forget-is and of the statement branch (the same code at 330-335); stated by `Bucket.NormalizedVerb` and `Bucket.NormalizeVerbIdempotent` |
| Bucket.NormalizeVerbIdempotent | plugin.go:330-335 | normalising a normalised verb changes nothing |
| Bucket.OccurrencesAppend | plugin.go:346 | the number of matching responses in a concatenation is the sum of the two counts |
| Bucket.OccurrencesPositive | plugin.go:193 | some response matches exactly when the count of matches is positive |
| Bucket.ForgottenRemovesOne | plugin.go:195 | the splice keeps the responses before and after the first match in order; when something matches, the list and the count of matches each lose exactly one; otherwise nothing changes |
| Bucket.ListTextAppend | plugin.go:231-236 | the listed text of a concatenation is the concatenation of the listed texts |
| Bucket.ListTextCons | plugin.go:232-235 | the listed text starts with ", " and the first value's text |
| Bucket.ExpandNoReference | plugin.go:359 | a text without '$' expands to itself |
| Bucket.ExpandOneReference | plugin.go:359-369 | `$name` alone expands to what the lookup callback returns for that name and that draw |
| Bucket.Expand | plugin.go:359-369 | `os.Expand` over `$name` references with the render callback; stated by `Bucket.ExpandNoReference`, `Bucket.ExpandOneReference` and `Bucket.CapitalizedReferenceIsEmpty` |
| Bucket.Substitute | plugin.go:360-368 | the render callback: the variable's values picked by the draw, or "" when it has none; stated by `Bucket.SubstituteChoice` |
| Bucket.SubstituteChoice | plugin.go:365-368 | a variable with no values gives ""; otherwise the result is one of its values' texts, and the only one when it has one value |
| Bucket.CapitalizedReferenceIsEmpty | plugin.go:363 | in a store whose names are lower-cased, a reference with an ASCII capital always expands to "" |
| Bucket.AppendResponse | plugin.go:343-348 | the key is present afterwards; its responses are the old ones, or none, with the new one at the end; every other key is unchanged |
| Bucket.ForgetResponse | plugin.go:189-200 | the key is present afterwards, even when it was absent; its responses are the old ones with the first match spliced out; every other key is unchanged |
| Bucket.AppendValue | plugin.go:252-261 | the transaction fails exactly when the name is missing; otherwise the value goes at the end, the creator is kept, and no other name changes |
| Bucket.CreateVariable | plugin.go:279-287 | the creator is set to the sender, keeping the values, exactly when it was empty; otherwise the collection is unchanged |
| Bucket.RemoveVariable | plugin.go:304-308 | the name is absent afterwards, and every other name is unchanged |
| Bucket.FactAt | plugin.go:157-160 | reading a fact with the Get error ignored (also 188-191 and 337-345): a missing key reads as the empty fact; stated through `Laws.LiteralStep`, `Laws.ForgetWritesBack` and `Bucket.AppendResponse` |
| Bucket.VarAt | plugin.go:223-226 | reading a variable with the Get error ignored (also 277-281, 303-306 and 360-363): a missing name reads as no values and no creator; stated through `Laws.ListVarMessage`, `Bucket.SubstituteChoice`, `Laws.CreateVarStep` and `Laws.RemoveVarStep` |
| Bucket.Execute | plugin.go:149-373 | the effect and reply of each branch; stated branch by branch by the lemmas of `Laws` |
| Bucket.Step | plugin.go:126-373 | one call of the callback: classify the message, then run its branch; `Plugin.BucketPlugin.MentionCallback` is proved to do exactly this |
| Laws.ReadOnlyBranches | plugin.go:149-373 | literal, list var, render and every empty branch leave both collections unchanged |
| Laws.StepRunsCommand | plugin.go:149-373 | proof step: one call runs the branch of the command the chain selected; the message-level laws go through it |
| Laws.StatementEffect | plugin.go:328-357 | the statement branch appends the response (text, sender, normalised verb) at the end of the lower-cased key's list; every other key and all variables are unchanged; the reply echoes the key as typed |
| Laws.StatementStep | plugin.go:323-357 | teaching `K V T` runs the statement branch on exactly K, V and T, under the conditions on K, V and T of `Grammar.StatementClassified` |
| Laws.StatementThenForget | plugin.go:173-214 | under the conditions on K, V and T of `Grammar.StatementClassified`, `forget K V T` right after `K V T` reports that it forgot, and leaves as many responses, and as many copies of that one, as before the statement |
| Laws.ForgetWritesBack | plugin.go:189-213 | forget-is on a key that held nothing stores an empty fact under it and replies that it could not find the fact |
| Laws.ForgetStep | plugin.go:187-214 | forget-is says it forgot exactly when a response with that text and normalised verb was stored, and then removes exactly one such response |
| Laws.AddValueStep | plugin.go:246-273 | add value to a missing variable changes nothing and fails; otherwise the value goes at the end, the creator and the other variables stay, and the reply confirms |
| Laws.AddValueMessage | plugin.go:242-273 | the message `add value W T` runs the add value branch on W and T for any sender, and fails without changing anything when W is not stored |
| Laws.CreateVarStep | plugin.go:276-299 | create var says it created exactly when the variable had no creator, keeps its values; a second create replies "already created" and changes nothing, except after a first create by a sender with an empty name, when it creates again and says so |
| Laws.RemoveVarStep | plugin.go:302-320 | remove var deletes the name; it says it removed the variable exactly when the variable had a creator, which in a store where every variable has one means exactly when it was there |
| Laws.VarCommandsNeedOp | plugin.go:274-320 | without the OP flag, `create var W` and `remove var W` change nothing and say nothing |
| Laws.ListVarLeadingSeparator | plugin.go:229-238 | list var of a variable with values replies with ", " before the first value too |
| Laws.ListVarMessage | plugin.go:218-238 | the message `list var W` changes nothing and replies with the lower-cased W and the listed values of that variable, none when it is missing |
| Laws.InventoryStep | plugin.go:321-322 | the four inventory phrases, in any letter case, change nothing and say nothing |
| Laws.LiteralStep | plugin.go:149-163 | `literal K` changes nothing and mentions the fact stored under the lower-cased K, or the empty fact when it is missing; `literal[N] K` does exactly the same whatever N |
| Laws.RenderPlainText | plugin.go:358-370 | render of a text without '$' mentions the text back, and changes nothing |
| Laws.ExecuteKeepsLowerKeys | plugin.go:149-373 | no branch adds a key or a name that is not lower-cased |
| Laws.StepKeepsLowerKeys | plugin.go:149-373 | the stored keys and names stay lower-cased whatever message arrives |
| Laws.StepKeepsCreators | plugin.go:274-299 | with a named sender, every stored variable keeps having a creator |
| Plugin.BucketPlugin.constructor | plugin.go:93-106 | a fresh database has both collections, both empty |
| Plugin.BucketPlugin.UpdateStatement | plugin.go:343-348 | the statement transaction leaves facts as the append transaction says, and variables as they were |
| Plugin.BucketPlugin.UpdateForget | plugin.go:189-200 | the forget-is transaction reports a match exactly when the first match exists, and leaves facts as the forget transaction says |
| Plugin.BucketPlugin.UpdateAddValue | plugin.go:252-261 | the add value transaction succeeds exactly when the name is stored; on failure nothing changes |
| Plugin.BucketPlugin.UpdateCreateVar | plugin.go:279-287 | the create var transaction reports creating exactly when the creator was empty, and leaves variables as the create transaction says |
| Plugin.BucketPlugin.UpdateRemoveVar | plugin.go:304-308 | the remove var transaction returns what was stored before the delete, and deletes the name |
| Plugin.BucketPlugin.ForgetBranch | plugin.go:173-214 | the forget-is branch leaves the object and replies as the transition says |
| Plugin.BucketPlugin.AddValueBranch | plugin.go:242-273 | the add value branch leaves the object and replies as the transition says |
| Plugin.BucketPlugin.CreateVarBranch | plugin.go:274-299 | the create var branch leaves the object and replies as the transition says |
| Plugin.BucketPlugin.RemoveVarBranch | plugin.go:300-320 | the remove var branch leaves the object and replies as the transition says |
| Plugin.BucketPlugin.Dispatch | plugin.go:149-373 | the branch selected leaves the object and replies as the transition says |
| Plugin.BucketPlugin.MentionCallback | plugin.go:149-373 | one call leaves the two collections and replies exactly as the transition `Step` says |

## Left out

- Message extraction and transport are not modelled: `m.Trailing()`, `strings.TrimSpace`, `m.Prefix.User` and the reply calls. A message is its trimmed text, the sender and the OP flag, and the reply is a value.
- The OP flag is an input. Deriving it from the sender's channel modes through the channel tracker needs the tracker, which is not modelled.
- Plugin registration, configuration loading and bucket creation are setup against external libraries. The constructor models only the outcome on a fresh database: two empty collections. An existing database keeps its contents, which is not modelled.
- The console print of the message and all logging are output only, and are not modelled.
- The database is in-memory maps. Serialisation and failures of Put, Delete or the transaction itself are not modelled. The one failing Get that the code acts on, in add value, is modelled as a rollback.
- The `%+v` printing of the literal reply is not modelled. The reply carries the fact itself (`MentionFact`).
- Plugin.BucketPlugin.AddValueBranch: the error reply is the abstract `Failure`, not the formatted text. The source formats `"Ok %s, %s"` with only the error as argument, and that text depends on the storage library's error message, which is not modelled.
- `math/rand` is the parameter `rng`. The nth reference in a render draws `rng(nth)`, reduced modulo the number of values, so every choice a fair draw can make is covered.
- Bucket.Expand: a '$' followed by an ASCII letter, digit or underscore starts a reference that runs over the longest such name, and any other '$' stays literal. `os.Expand` differs for the braced form `${name}` and for the shell special names, including a single leading digit (`$1x` names "1" there and "1x" here). Those forms are not modelled.
- Text.Lower: `strings.ToLower` is modelled for ASCII and the Kelvin sign, which covers every `\w` name. Lower-casing other Unicode letters in keys is not modelled.
- Grammar.StatementClassified, Laws.StatementStep, Laws.StatementThenForget: the key condition is sufficient, not exact. They cover only keys without a space. Multi-word keys, as in `the cake is a lie` (stored under "the cake"), are read by `Grammar.StatementMatch` but not reached by these lemmas. Nor are keys that begin with "literal" but are not followed by `[N] ` or a space, or the keys merge and alias with no arrow in the rest, though the source stores all of these as statements.
- Calls are modelled one at a time, each as one transition. Handlers that run concurrently are not modelled. Nor is the interleaving of render's per-reference View transactions with other messages' Updates.
- Captures of the empty branches (undo, merge, alias, lookup, forget, remove value) are not kept, since those branches never read them.

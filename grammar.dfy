/** The command grammar of the bucket plugin: one hand-written matcher per
    regular expression of plugin.go (all carry `(?i)`, so keywords match in
    any case while captures keep theirs), and the if/else-if chain that tries
    them in source order, first match winning. */
module Grammar {
  import opened Text

  datatype Option<T> = None | Some(value: T)

  /** The three submatches of `(.+?) (is|is also|are|<\w+>) (.+)`. */
  datatype Clause = Clause(key: string, verb: string, text: string)

  /** The branch of the callback an utterance selects, with the captures the
      branch uses. Branches whose body is empty keep no captures. */
  datatype Command =
    | Literal(index: string, key: string)
    | Undo
    | Merge
    | Alias
    | Lookup
    | ForgetIs(key: string, verb: string, text: string)
    | Forget
    | WhatWasThat
    | ListVars
    | ListVar(name: string)
    | RemoveValue
    | AddValue(name: string, text: string)
    | CreateVar(name: string)
    | RemoveVar(name: string)
    | FullInventory
    | Inventory
    | Statement(key: string, verb: string, text: string)
    | Render(text: string)
    | Fallback

  // ---------------------------------------------------------------------
  // The statement grammar  (.+?) (is|is also|are|<\w+>) (.+)
  // ---------------------------------------------------------------------

  /** A string the alternation `is|is also|are|<\w+>` matches. */
  predicate IsVerbToken(v: string)
    ensures IsVerbToken(v) ==> |v| >= 2
  {
    || EqualsFold(v, "is")
    || EqualsFold(v, "is also")
    || EqualsFold(v, "are")
    || (|v| >= 3 && v[0] == '<' && v[|v| - 1] == '>' && IsWord(v[1..|v| - 1]))
  }

  /** ` (.+)$` matches from position e: a space and a non-empty rest. */
  predicate TextFollows(t: string, e: nat)
  {
    e + 1 < |t| && t[e] == ' '
  }

  /** The keyword alternative kw matches at position j and the rest of the
      pattern matches after it. */
  predicate KeywordAt(t: string, j: nat, kw: string)
  {
    j <= |t| && HasPrefixFold(t[j..], kw) && TextFollows(t, j + |kw|)
  }

  /** The length of `<\w+>` at position j, or 0 when it does not match there.
      The greedy `\w+` can only stop at the first non-word character, so that
      character must be the closing '>'. */
  function CustomVerbLen(t: string, j: nat): (n: nat)
    ensures n > 0 ==> n >= 3 && j + n <= |t| && IsVerbToken(t[j..j + n])
  {
    if j < |t| && t[j] == '<' then
      var w := Span(t[j + 1..], Word);
      if 0 < w && j + 1 + w < |t| && t[j + 1 + w] == '>' then
        assert IsWord(t[j..j + w + 2][1..w + 1]) by {
          var name := t[j..j + w + 2][1..w + 1];
          forall i | 0 <= i < w ensures IsWordChar(name[i]) {
            assert name[i] == t[j + 1..][i];
          }
        }
        w + 2
      else 0
    else 0
  }

  /** The length of the verb that the alternation takes at position j: the
      alternatives are tried in order, and the first after which the rest of
      the pattern matches is kept; 0 when none is. */
  function VerbLen(t: string, j: nat): (n: nat)
    ensures n > 0 ==> TextFollows(t, j + n) && IsVerbToken(t[j..j + n])
  {
    if KeywordAt(t, j, "is") then
      assert EqualsFold(t[j..j + 2], "is") by { assert forall i :: 0 <= i < 2 ==> t[j..j + 2][i] == t[j..][i]; }
      2
    else if KeywordAt(t, j, "is also") then
      assert EqualsFold(t[j..j + 7], "is also") by { assert forall i :: 0 <= i < 7 ==> t[j..j + 7][i] == t[j..][i]; }
      7
    else if KeywordAt(t, j, "are") then
      assert EqualsFold(t[j..j + 3], "are") by { assert forall i :: 0 <= i < 3 ==> t[j..j + 3][i] == t[j..][i]; }
      3
    else
      var n := CustomVerbLen(t, j);
      if n > 0 && TextFollows(t, j + n) then n else 0
  }

  /** The lazy key may end at position k: a space follows it and the verb
      and text match after that space. */
  predicate SplitsAt(t: string, k: nat)
  {
    0 < k < |t| && t[k] == ' ' && VerbLen(t, k + 1) > 0
  }

  /** The captures when the key ends at position k. */
  function ClauseAt(t: string, k: nat): (c: Clause)
    requires SplitsAt(t, k)
  {
    var n := VerbLen(t, k + 1);
    Clause(t[..k], t[k + 1..k + 1 + n], t[k + 2 + n..])
  }

  /** The least m in [k, n) with p(m), or n when there is none: the order in
      which a lazy repetition tries its lengths, shortest first. */
  function FirstFrom(p: nat -> bool, k: nat, n: nat): (r: nat)
    requires k <= n
    decreases n - k
    ensures k <= r <= n
    ensures forall m :: k <= m < r ==> !p(m)
    ensures r < n ==> p(r)
  {
    if k == n then n
    else if p(k) then k
    else FirstFrom(p, k + 1, n)
  }

  /** The backtracking search for the lazy `(.+?)`: key lengths from 1 up,
      the first that lets the rest of the pattern match wins; |t| when none
      does. */
  function KeyLength(t: string): (k: nat)
    ensures k <= |t|
    ensures forall m :: 0 < m < k ==> !SplitsAt(t, m)
    ensures k < |t| ==> SplitsAt(t, k)
  {
    if |t| == 0 then 0
    else
      var p := (m: nat) => SplitsAt(t, m);
      var r := FirstFrom(p, 1, |t|);
      assert forall m :: 0 < m < r ==> !SplitsAt(t, m) by {
        forall m | 0 < m < r ensures !SplitsAt(t, m) {
          assert !p(m);
        }
      }
      r
  }

  /** `^(.+?) (is|is also|are|<\w+>) (.+)$` with Go's leftmost-first
      submatch choice; no part of the pattern matches a newline. */
  function StatementMatch(t: string): (r: Option<Clause>)
  {
    var k := KeyLength(t);
    if NoNewline(t) && k < |t| then Some(ClauseAt(t, k)) else None
  }

  // ---------------------------------------------------------------------
  // The other patterns
  // ---------------------------------------------------------------------

  /** `^literal(?:\[(\d+)\])? (.*)$`: the index digits ("" when the optional
      group does not take part) and the key. */
  function LiteralMatch(s: string): (r: Option<(string, string)>)
  {
    if !HasPrefixFold(s, "literal") then None
    else
      var t := s[7..];
      if |t| > 0 && t[0] == '[' then
        var d := Span(t[1..], Digit);
        if 0 < d && d + 2 < |t| && t[d + 1] == ']' && t[d + 2] == ' ' && NoNewline(t[d + 3..])
        then Some((t[1..d + 1], t[d + 3..]))
        else None
      else if |t| > 0 && t[0] == ' ' && NoNewline(t[1..]) then Some(("", t[1..]))
      else None
  }

  /** `^p(.*)$` for a keyword prefix p: the rest of the line. */
  function LineAfter(s: string, p: string): (r: Option<string>)
  {
    if HasPrefixFold(s, p) && NoNewline(s[|p|..]) then Some(s[|p|..]) else None
  }

  /** ` [-=]> ` occurs in t. */
  predicate HasArrow(t: string)
  {
    exists i :: 0 <= i < |t| - 3 && t[i] == ' ' && (t[i + 1] == '-' || t[i + 1] == '=') && t[i + 2] == '>' && t[i + 3] == ' '
  }

  /** `^p(.*) [-=]> (.*)$`. */
  predicate ArrowAfter(s: string, p: string)
  {
    LineAfter(s, p).Some? && HasArrow(s[|p|..])
  }

  /** `^p(\w+)$`: the name. */
  function WordAfter(s: string, p: string): (r: Option<string>)
  {
    if HasPrefixFold(s, p) && IsWord(s[|p|..]) then Some(s[|p|..]) else None
  }

  /** `^p(\w+) (.*)$`: the name and the text. The greedy `\w+` ends at the
      first non-word character, which must be the space. */
  function WordAndText(s: string, p: string): (r: Option<(string, string)>)
  {
    if !HasPrefixFold(s, p) then None
    else
      var t := s[|p|..];
      var w := Span(t, Word);
      if 0 < w < |t| && t[w] == ' ' && NoNewline(t[w + 1..]) then Some((t[..w], t[w + 1..])) else None
  }

  /** The verb captures Normalize may be applied to: never "is also" in any
      case, since `is` is tried first. */
  predicate WellFormed(c: Command)
  {
    (c.ForgetIs? || c.Statement?) ==> IsVerbToken(c.verb) && !EqualsFold(c.verb, "is also")
  }

  /** The first group of the chain, the commands of xkcd-Bucket's own order:
      literal, undo, merge, alias, lookup, forget-is, forget, what was that. */
  function CoreCommand(data: string): (r: Option<Command>)
    ensures r.Some? ==> WellFormed(r.value)
  {
    var literal := LiteralMatch(data);
    var forgetIs := if HasPrefixFold(data, "forget ") then StatementMatch(data[7..]) else None;
    if literal.Some? then Some(Literal(literal.value.0, literal.value.1))
    else if EqualsFold(data, "undo") || EqualsFold(data, "undo last") then Some(Undo)
    else if ArrowAfter(data, "merge ") then Some(Merge)
    else if ArrowAfter(data, "alias ") then Some(Alias)
    else if LineAfter(data, "lookup ").Some? then Some(Lookup)
    else if forgetIs.Some? then
      VerbNeverIsAlso(data[7..], forgetIs.value);
      Some(ForgetIs(forgetIs.value.key, forgetIs.value.verb, forgetIs.value.text))
    else if LineAfter(data, "forget ").Some? then Some(Forget)
    else if EqualsFold(data, "what was that") || EqualsFold(data, "what was that?") then Some(WhatWasThat)
    else None
  }

  /** The variable commands; creating and removing a variable also demand
      the OP flag, and without it the chain goes on past them. */
  function VariableCommand(data: string, op: bool): (r: Option<Command>)
    ensures r.Some? ==> r.value.ListVars? || r.value.ListVar? || r.value.RemoveValue? || r.value.AddValue? || r.value.CreateVar? || r.value.RemoveVar?
    ensures r.Some? && (r.value.CreateVar? || r.value.RemoveVar?) ==> op
    ensures r.Some? && r.value.CreateVar? ==> HasPrefixFold(data, "create var ") && r.value.name == data[11..]
    ensures r.Some? && r.value.RemoveVar? ==> HasPrefixFold(data, "remove var ") && r.value.name == data[11..]
  {
    var listVar := WordAfter(data, "list var ");
    var addValue := WordAndText(data, "add value ");
    var createVar := WordAfter(data, "create var ");
    var removeVar := WordAfter(data, "remove var ");
    if EqualsFold(data, "list vars") then Some(ListVars)
    else if listVar.Some? then Some(ListVar(listVar.value))
    else if WordAndText(data, "remove value ").Some? then Some(RemoveValue)
    else if addValue.Some? then Some(AddValue(addValue.value.0, addValue.value.1))
    else if op && createVar.Some? then Some(CreateVar(createVar.value))
    else if op && removeVar.Some? then Some(RemoveVar(removeVar.value))
    else None
  }

  /** The inventory commands. */
  function InventoryCommand(data: string): (r: Option<Command>)
    ensures r.Some? ==> r.value == FullInventory || r.value == Inventory
  {
    if EqualsFold(data, "detailed inventory") || EqualsFold(data, "list item details") then Some(FullInventory)
    else if EqualsFold(data, "inventory") || EqualsFold(data, "list items") then Some(Inventory)
    else None
  }

  /** The dispatch chain of the callback: the patterns in source order, in
      the source's three groups, then the statement and render patterns,
      first match winning. */
  function Classify(data: string, op: bool): (c: Command)
    ensures WellFormed(c)
  {
    var core := CoreCommand(data);
    var variable := VariableCommand(data, op);
    var inventory := InventoryCommand(data);
    var statement := StatementMatch(data);
    var render := LineAfter(data, "render ");
    if core.Some? then core.value
    else if variable.Some? then variable.value
    else if inventory.Some? then inventory.value
    else if statement.Some? then
      VerbNeverIsAlso(data, statement.value);
      Statement(statement.value.key, statement.value.verb, statement.value.text)
    else if render.Some? then Render(render.value)
    else Fallback
  }

  // ---------------------------------------------------------------------
  // What the statement grammar matches
  // ---------------------------------------------------------------------

  /** The captures put back together give the whole input: a non-empty key,
      a space, a verb of the alternation, a space and a non-empty text, none
      of them holding a newline. */
  lemma StatementCaptures(t: string, c: Clause)
    requires StatementMatch(t) == Some(c)
    ensures t == c.key + " " + c.verb + " " + c.text
    ensures |c.key| > 0 && |c.text| > 0 && IsVerbToken(c.verb) && NoNewline(t)
  {
    var k := KeyLength(t);
    assert SplitsAt(t, k);
    var n := VerbLen(t, k + 1);
    assert c == Clause(t[..k], t[k + 1..k + 1 + n], t[k + 2 + n..]);
    Reassemble(t, k, n);
  }

  /** Cutting t at two spaces and gluing the pieces back with spaces gives t. */
  lemma Reassemble(t: string, k: nat, n: nat)
    requires k + 2 + n <= |t| && t[k] == ' ' && t[k + 1 + n] == ' '
    ensures t == t[..k] + " " + t[k + 1..k + 1 + n] + " " + t[k + 2 + n..]
  {
    assert t == t[..k] + [t[k]] + t[k + 1..k + 1 + n] + [t[k + 1 + n]] + t[k + 2 + n..];
  }

  /** Leftmost-first: the key is the shortest one after which the rest of
      the pattern matches, and such a key always yields a match. */
  lemma StatementShortestKey(t: string, m: nat)
    requires NoNewline(t) && SplitsAt(t, m)
    ensures StatementMatch(t).Some?
    ensures |StatementMatch(t).value.key| <= m
  {
  }

  /** The alternative `is also` can never be the one kept: wherever it
      matches with its continuation, `is` matches first, and the text then
      starts with "also". */
  lemma VerbNeverIsAlso(t: string, c: Clause)
    requires StatementMatch(t) == Some(c)
    ensures !EqualsFold(c.verb, "is also")
  {
  }

  /** The greedy `k+` over s stops exactly at w when the first w characters
      are in k and the one after them is not. */
  lemma SpanStopsAt(s: string, k: Class, w: nat)
    requires w < |s| && !InClass(s[w], k)
    requires forall i :: 0 <= i < w ==> InClass(s[i], k)
    ensures Span(s, k) == w
  {
  }

  /** At position j the alternation takes exactly the verb written there,
      provided it is not "is also" (for which `is` would win). */
  lemma VerbLenOf(t: string, j: nat, verb: string)
    requires IsVerbToken(verb) && !EqualsFold(verb, "is also")
    requires j + |verb| <= |t| && t[j..j + |verb|] == verb && TextFollows(t, j + |verb|)
    ensures VerbLen(t, j) == |verb|
  {
    assert forall i :: 0 <= i < |verb| ==> t[j..][i] == verb[i];
    if EqualsFold(verb, "is") {
      assert KeywordAt(t, j, "is");
    } else {
      PrefixMismatch(t[j..], "is", 0);
      PrefixMismatch(t[j..], "is also", 0);
      if EqualsFold(verb, "are") {
        assert KeywordAt(t, j, "are");
      } else {
        PrefixMismatch(t[j..], "are", 0);
        var w := |verb| - 2;
        var rest := t[j + 1..];
        forall i | 0 <= i < w ensures InClass(rest[i], Word) {
          assert rest[i] == verb[1..|verb| - 1][i];
        }
        SpanStopsAt(rest, Word, w);
      }
    }
  }

  /** The round trip of the statement grammar: a key without spaces, a verb
      of the alternation other than "is also", and a non-empty text, joined
      with single spaces, are matched back into exactly those captures. */
  lemma StatementRoundTrip(key: string, verb: string, text: string)
    requires |key| > 0 && forall i :: 0 <= i < |key| ==> key[i] != ' ' && key[i] != '\n'
    requires IsVerbToken(verb) && !EqualsFold(verb, "is also")
    requires |text| > 0 && NoNewline(text)
    ensures StatementMatch(key + " " + verb + " " + text) == Some(Clause(key, verb, text))
  {
    var t := key + " " + verb + " " + text;
    var k := |key|;
    JoinedParts(key, verb, text);
    VerbLenOf(t, k + 1, verb);
    assert SplitsAt(t, k);
    assert ClauseAt(t, k) == Clause(key, verb, text);
    StatementShortestKey(t, k);
    assert |StatementMatch(t).value.key| == k;
  }

  /** Where the pieces of key + " " + verb + " " + text sit, and that the whole
      holds no newline. */
  lemma JoinedParts(key: string, verb: string, text: string)
    requires forall i :: 0 <= i < |key| ==> key[i] != '\n'
    requires IsVerbToken(verb) && NoNewline(text)
    ensures var t := key + " " + verb + " " + text; var k := |key|; var n := |verb|;
      && |t| == k + n + 2 + |text| && t[k] == ' ' && t[k + 1 + n] == ' '
      && t[..k] == key && t[k + 1..k + 1 + n] == verb && t[k + 2 + n..] == text
      && (forall i :: 0 <= i < k ==> t[i] == key[i])
      && NoNewline(t)
  {
    var t := key + " " + verb + " " + text;
    var k := |key|;
    var n := |verb|;
    VerbTokenNoNewline(verb);
    assert t == key + [' '] + verb + [' '] + text;
    forall i | 0 <= i < |t| ensures t[i] != '\n' {
      if i < k {
        assert t[i] == key[i];
      } else if k < i < k + 1 + n {
        assert t[i] == verb[i - k - 1];
      } else if i > k + 1 + n {
        assert t[i] == text[i - k - 2 - n];
      }
    }
  }

  /** A verb of the alternation never holds a newline. */
  lemma VerbTokenNoNewline(v: string)
    requires IsVerbToken(v)
    ensures NoNewline(v)
  {
    if |v| >= 3 && v[0] == '<' && v[|v| - 1] == '>' && IsWord(v[1..|v| - 1]) {
      forall i | 0 < i < |v| - 1 ensures v[i] != '\n' {
        assert v[i] == v[1..|v| - 1][i - 1];
      }
    }
  }

  /** "K is also T" is stored under K with the verb "is" and the text
      "also T": the `is also` alternative is never the one taken. */
  lemma IsAlsoCapturedAsIs(key: string, text: string)
    requires |key| > 0 && forall i :: 0 <= i < |key| ==> key[i] != ' ' && key[i] != '\n'
    requires NoNewline(text)
    ensures StatementMatch(key + " is also " + text) == Some(Clause(key, "is", "also " + text))
  {
    assert NoNewline("also " + text) by {
      forall i | 0 <= i < |"also " + text| ensures ("also " + text)[i] != '\n' {
        if i >= 5 {
          assert ("also " + text)[i] == text[i - 5];
        }
      }
    }
    assert key + " is also " + text == key + " " + "is" + " " + ("also " + text);
    StatementRoundTrip(key, "is", "also " + text);
  }

  // ---------------------------------------------------------------------
  // Precedence
  // ---------------------------------------------------------------------

  /** The utterance does not begin, in any case, with one of letters. */
  predicate InitialNotIn(data: string, letters: string)
  {
    |data| > 0 && Fold(data[0]) !in letters
  }

  /** The keys the first group claims when a space follows them: `literal`
      and `literal[N]` (and, in this statement, every key beginning with
      "literal"), and the one-word keywords merge, alias, lookup and
      forget. */
  predicate CommandKey(key: string)
  {
    || HasPrefixFold(key, "literal")
    || EqualsFold(key, "merge")
    || EqualsFold(key, "alias")
    || EqualsFold(key, "lookup")
    || EqualsFold(key, "forget")
  }

  /** The first group reads nothing that begins with a letter other than
      those of its keywords. */
  lemma CorePassesOver(data: string)
    requires InitialNotIn(data, "aflmuw")
    ensures CoreCommand(data).None?
  {
    PrefixMismatch(data, "literal", 0);
    PrefixMismatch(data, "undo", 0);
    PrefixMismatch(data, "undo last", 0);
    PrefixMismatch(data, "merge ", 0);
    PrefixMismatch(data, "alias ", 0);
    PrefixMismatch(data, "lookup ", 0);
    PrefixMismatch(data, "forget ", 0);
    PrefixMismatch(data, "what was that", 0);
    PrefixMismatch(data, "what was that?", 0);
  }

  /** The inventory commands read nothing that begins with a letter other
      than those of their keywords. */
  lemma InventoryPassesOver(data: string)
    requires InitialNotIn(data, "dil")
    ensures InventoryCommand(data).None?
  {
    PrefixMismatch(data, "detailed inventory", 0);
    PrefixMismatch(data, "list item details", 0);
    PrefixMismatch(data, "inventory", 0);
    PrefixMismatch(data, "list items", 0);
  }

  /** Character i+1 of t can begin a verb alternative other than "is also":
      "is", "are" or `<`. */
  predicate VerbInitial(t: string, j: nat)
  {
    j + 1 < |t| && ((Fold(t[j]) == 'i' && Fold(t[j + 1]) == 's') || Fold(t[j]) == 'a' || t[j] == '<')
  }

  /** The shape of `K V T`: a key of k characters without a space, then a
      space, then something that can begin a verb. */
  predicate KeyShape(data: string, k: nat)
  {
    0 < k && k + 2 < |data| && data[k] == ' ' && (forall m :: 0 <= m < k ==> data[m] != ' ') && VerbInitial(data, k + 1)
  }

  lemma VerbTokenInitial(v: string)
    requires IsVerbToken(v)
    ensures v[0] == '<' || (Fold(v[0]) == 'i' && Fold(v[1]) == 's') || Fold(v[0]) == 'a'
  {
  }

  /** A keyword pattern p without a space, matched at the start of a message
      whose first word has k characters, lies inside that word. */
  lemma KeyCoversPrefix(data: string, k: nat, p: string)
    requires k < |data| && data[k] == ' ' && forall m :: 0 <= m < k ==> data[m] != ' '
    requires forall m :: 0 <= m < |p| ==> p[m] != ' '
    ensures HasPrefixFold(data, p) ==> |p| <= k && HasPrefixFold(data[..k], p)
  {
    assert Fold(data[k]) == ' ';
  }

  /** A keyword pattern p whose first space is at i, matched at the start of a
      message whose first word has k characters: that word has i characters. */
  lemma KeyEndsAtSpace(data: string, k: nat, p: string, i: nat)
    requires k < |data| && data[k] == ' ' && forall m :: 0 <= m < k ==> data[m] != ' '
    requires i < |p| && p[i] == ' ' && forall m :: 0 <= m < i ==> p[m] != ' '
    ensures HasPrefixFold(data, p) ==> k == i
  {
    assert Fold(data[k]) == ' ';
    assert forall m :: 0 <= m < |data| && Fold(data[m]) == ' ' ==> data[m] == ' ';
  }

  /** A keyword pattern that goes on, after its first word, with a letter
      no verb alternative begins with does not match `K V T`. */
  lemma SecondWordNotVerb(data: string, k: nat, p: string, i: nat)
    requires KeyShape(data, k)
    requires i + 2 < |p| && p[i] == ' ' && forall m :: 0 <= m < i ==> p[m] != ' '
    requires p[i + 1] != 'a' && p[i + 1] != '<' && (p[i + 1] == 'i' ==> p[i + 2] != 's')
    ensures !HasPrefixFold(data, p)
  {
    KeyEndsAtSpace(data, k, p, i);
  }

  /** A one-word keyword followed by a space matches `K V T` only when K is
      that keyword. */
  lemma KeyIsKeyword(data: string, k: nat, p: string)
    requires KeyShape(data, k)
    requires 0 < |p| && p[|p| - 1] == ' ' && forall m :: 0 <= m < |p| - 1 ==> p[m] != ' '
    requires !EqualsFold(data[..k], p[..|p| - 1])
    ensures !HasPrefixFold(data, p)
  {
    KeyEndsAtSpace(data, k, p, |p| - 1);
  }

  /** A keyword without a space that begins no key does not begin `K V T`. */
  lemma KeyLacksKeyword(data: string, k: nat, p: string)
    requires KeyShape(data, k)
    requires forall m :: 0 <= m < |p| ==> p[m] != ' '
    requires !HasPrefixFold(data[..k], p)
    ensures !HasPrefixFold(data, p)
  {
    KeyCoversPrefix(data, k, p);
  }

  /** The first group reads nothing that none of its patterns begins. */
  lemma CoreNone(data: string)
    requires !HasPrefixFold(data, "literal") && !EqualsFold(data, "undo") && !HasPrefixFold(data, "undo last")
    requires !HasPrefixFold(data, "merge ") && !HasPrefixFold(data, "alias ") && !HasPrefixFold(data, "lookup ")
    requires !HasPrefixFold(data, "forget ") && !HasPrefixFold(data, "what was that") && !HasPrefixFold(data, "what was that?")
    ensures CoreCommand(data).None?
  {
  }

  /** No pattern of the first group that spells out a second word begins
      `K V T`, nor does `literal` or `undo` unless the key is one of them. */
  lemma CoreLongKeywordsMiss(data: string, k: nat)
    requires KeyShape(data, k) && !HasPrefixFold(data[..k], "literal")
    ensures !HasPrefixFold(data, "literal") && !EqualsFold(data, "undo") && !HasPrefixFold(data, "undo last")
    ensures !HasPrefixFold(data, "what was that") && !HasPrefixFold(data, "what was that?")
  {
    KeyLacksKeyword(data, k, "literal");
    KeyCoversPrefix(data, k, "undo");
    SecondWordNotVerb(data, k, "undo last", 4);
    SecondWordNotVerb(data, k, "what was that", 4);
    SecondWordNotVerb(data, k, "what was that?", 4);
  }

  /** The one-word keywords of the first group begin `K V T` only when K is
      that keyword. */
  lemma CoreWordKeywordsMiss(data: string, k: nat)
    requires KeyShape(data, k)
    requires !EqualsFold(data[..k], "merge") && !EqualsFold(data[..k], "alias")
    requires !EqualsFold(data[..k], "lookup") && !EqualsFold(data[..k], "forget")
    ensures !HasPrefixFold(data, "merge ") && !HasPrefixFold(data, "alias ")
    ensures !HasPrefixFold(data, "lookup ") && !HasPrefixFold(data, "forget ")
  {
    assert "merge "[..5] == "merge" && "alias "[..5] == "alias";
    assert "lookup "[..6] == "lookup" && "forget "[..6] == "forget";
    KeyIsKeyword(data, k, "merge ");
    KeyIsKeyword(data, k, "alias ");
    KeyIsKeyword(data, k, "lookup ");
    KeyIsKeyword(data, k, "forget ");
  }

  /** Hence the first group does not read `K V T`. */
  lemma CoreSkipsStatement(data: string, k: nat)
    requires KeyShape(data, k) && !CommandKey(data[..k])
    ensures CoreCommand(data).None?
  {
    CoreLongKeywordsMiss(data, k);
    CoreWordKeywordsMiss(data, k);
    CoreNone(data);
  }

  /** No variable command reads `K V T`: each has a second word that begins
      with v, where the verb would be. */
  lemma VariableSkipsStatement(data: string, k: nat, op: bool)
    requires KeyShape(data, k)
    ensures VariableCommand(data, op).None?
  {
    assert !HasPrefixFold(data, "list vars") by { SecondWordNotVerb(data, k, "list vars", 4); }
    assert !HasPrefixFold(data, "list var ") by { SecondWordNotVerb(data, k, "list var ", 4); }
    assert !HasPrefixFold(data, "remove value ") by { SecondWordNotVerb(data, k, "remove value ", 6); }
    assert !HasPrefixFold(data, "add value ") by { SecondWordNotVerb(data, k, "add value ", 3); }
    assert !HasPrefixFold(data, "create var ") by { SecondWordNotVerb(data, k, "create var ", 6); }
    assert !HasPrefixFold(data, "remove var ") by { SecondWordNotVerb(data, k, "remove var ", 6); }
  }

  /** No inventory command reads `K V T`: "inventory" has no space, and the
      others go on with "in" or "it" where the verb would be. */
  lemma InventorySkipsStatement(data: string, k: nat)
    requires KeyShape(data, k)
    ensures InventoryCommand(data).None?
  {
    assert !HasPrefixFold(data, "detailed inventory") by { SecondWordNotVerb(data, k, "detailed inventory", 8); }
    assert !HasPrefixFold(data, "list item details") by { SecondWordNotVerb(data, k, "list item details", 4); }
    assert !EqualsFold(data, "inventory") by { KeyCoversPrefix(data, k, "inventory"); }
    assert !HasPrefixFold(data, "list items") by { SecondWordNotVerb(data, k, "list items", 4); }
  }

  /** Once a group reads the utterance, the chain stops there. */
  lemma ChainStopsAtCore(data: string, op: bool)
    requires CoreCommand(data).Some?
    ensures Classify(data, op) == CoreCommand(data).value
  {
  }

  /** forget-is reads `forget R` whenever R reads as a statement. */
  lemma CoreReadsForgetIs(data: string)
    requires HasPrefixFold(data, "forget ") && StatementMatch(data[7..]).Some?
    ensures var c := StatementMatch(data[7..]).value;
      CoreCommand(data) == Some(ForgetIs(c.key, c.verb, c.text))
  {
    CoreBeforeForget(data);
  }

  /** No pattern of the first group tried before forget-is reads `forget R`. */
  lemma CoreBeforeForget(data: string)
    requires HasPrefixFold(data, "forget ")
    ensures LiteralMatch(data).None?
    ensures !EqualsFold(data, "undo") && !EqualsFold(data, "undo last")
    ensures !ArrowAfter(data, "merge ") && !ArrowAfter(data, "alias ")
    ensures LineAfter(data, "lookup ").None?
  {
    PrefixMismatch(data, "literal", 0);
    PrefixMismatch(data, "undo", 0);
    PrefixMismatch(data, "undo last", 0);
    PrefixMismatch(data, "merge ", 0);
    PrefixMismatch(data, "alias ", 0);
    PrefixMismatch(data, "lookup ", 0);
  }

  /** Whatever the OP flag, `forget R` whose R reads as a statement is
      forget-is with R's captures. */
  lemma ForgetIsRead(data: string, op: bool)
    requires HasPrefixFold(data, "forget ") && StatementMatch(data[7..]).Some?
    ensures var c := StatementMatch(data[7..]).value;
      Classify(data, op) == ForgetIs(c.key, c.verb, c.text)
  {
    CoreReadsForgetIs(data);
    ChainStopsAtCore(data, op);
  }

  /** `forget K V T` deletes: the forget-is pattern is tried before the
      statement pattern, which would otherwise store the key "forget K". */
  lemma ForgetIsBeforeStatement(rest: string, op: bool)
    requires StatementMatch(rest).Some?
    ensures var c := StatementMatch(rest).value;
      Classify("forget " + rest, op) == ForgetIs(c.key, c.verb, c.text)
  {
    var data := "forget " + rest;
    PrefixOfPattern("forget ", rest);
    assert data[7..] == rest;
    ForgetIsRead(data, op);
  }

  /** Past the three groups, the statement pattern is tried, then render. */
  lemma ChainPastGroups(data: string, op: bool)
    requires CoreCommand(data).None? && VariableCommand(data, op).None? && InventoryCommand(data).None?
    ensures StatementMatch(data).Some? ==>
      Classify(data, op) == Statement(StatementMatch(data).value.key, StatementMatch(data).value.verb, StatementMatch(data).value.text)
    ensures StatementMatch(data).None? && LineAfter(data, "render ").Some? ==> Classify(data, op) == Render(LineAfter(data, "render ").value)
    ensures StatementMatch(data).None? && LineAfter(data, "render ").None? ==> Classify(data, op) == Fallback
  {
  }

  /** Any utterance of the form `K V T` whose key is none of the keys the
      first group claims is a statement with exactly those captures. */
  lemma StatementClassified(key: string, verb: string, text: string, op: bool)
    requires |key| > 0 && forall i :: 0 <= i < |key| ==> key[i] != ' ' && key[i] != '\n'
    requires !CommandKey(key)
    requires IsVerbToken(verb) && !EqualsFold(verb, "is also")
    requires |text| > 0 && NoNewline(text)
    ensures Classify(key + " " + verb + " " + text, op) == Statement(key, verb, text)
  {
    var data := key + " " + verb + " " + text;
    var k := |key|;
    StatementRoundTrip(key, verb, text);
    assert data[..k] == key;
    VerbTokenInitial(verb);
    assert data[k] == ' ' && data[k + 1] == verb[0] && data[k + 2] == verb[1];
    assert KeyShape(data, k);
    CoreSkipsStatement(data, k);
    VariableSkipsStatement(data, k, op);
    InventorySkipsStatement(data, k);
    ChainPastGroups(data, op);
  }

  /** The variable commands do not read `render T`. */
  lemma VariableSkipsRender(data: string, op: bool)
    requires HasPrefixFold(data, "render ")
    ensures VariableCommand(data, op).None?
  {
    PrefixMismatch(data, "list vars", 0);
    PrefixMismatch(data, "list var ", 0);
    PrefixMismatch(data, "remove value ", 2);
    PrefixMismatch(data, "add value ", 0);
    PrefixMismatch(data, "create var ", 0);
    PrefixMismatch(data, "remove var ", 2);
  }

  /** No command of the three groups reads `render T`. */
  lemma RenderPassesGroups(rest: string, op: bool)
    ensures var data := "render " + rest;
      && HasPrefixFold(data, "render ") && data[7..] == rest
      && CoreCommand(data).None? && VariableCommand(data, op).None? && InventoryCommand(data).None?
  {
    var data := "render " + rest;
    PrefixOfPattern("render ", rest);
    assert data[7..] == rest;
    CorePassesOver(data);
    VariableSkipsRender(data, op);
    InventoryPassesOver(data);
  }

  /** `render T` renders only when T does not also read as a statement: the
      statement pattern is tried first and would store the key "render ...". */
  lemma StatementBeforeRender(rest: string, op: bool)
    requires StatementMatch("render " + rest).Some?
    ensures Classify("render " + rest, op).Statement?
  {
    RenderPassesGroups(rest, op);
    ChainPastGroups("render " + rest, op);
  }

  /** `render T` with no statement reading renders T. */
  lemma RenderWithoutStatement(rest: string, op: bool)
    requires NoNewline(rest) && StatementMatch("render " + rest).None?
    ensures Classify("render " + rest, op) == Render(rest)
  {
    RenderPassesGroups(rest, op);
    ChainPastGroups("render " + rest, op);
  }

  /** No alternative of the verb starts where the text is a word running to
      the end: each needs a space after it, and `<` is not a word character. */
  lemma NoVerbInWord(t: string, j: nat)
    requires j < |t| && forall i :: j <= i < |t| ==> IsWordChar(t[i])
    ensures VerbLen(t, j) == 0
  {
  }

  /** No alternative of the verb starts at a character other than i, a or '<'. */
  lemma NoVerbAt(t: string, j: nat)
    requires j < |t| && Fold(t[j]) != 'i' && Fold(t[j]) != 'a' && t[j] != '<'
    ensures VerbLen(t, j) == 0
  {
    PrefixMismatch(t[j..], "is", 0);
    PrefixMismatch(t[j..], "is also", 0);
    PrefixMismatch(t[j..], "are", 0);
  }

  /** `create var W` and `remove var W` never read as statements: their only
      spaces are followed by "var" and by the word W. */
  lemma NoStatementInVarCommand(p: string, w: string)
    requires p == "create var " || p == "remove var "
    requires IsWord(w)
    ensures StatementMatch(p + w).None?
  {
    var t := p + w;
    assert forall i :: 11 <= i < |t| ==> t[i] == w[i - 11];
    NoVerbAt(t, 7);
    NoVerbInWord(t, 11);
    assert forall m :: 0 < m < |t| && m != 6 && m != 10 ==> t[m] != ' ';
  }

  /** A message that no group but the variable commands reads, and that is
      neither a statement nor a render request, is the variable command or
      nothing. */
  lemma VariableChain(data: string, op: bool)
    requires CoreCommand(data).None? && InventoryCommand(data).None?
    requires StatementMatch(data).None? && LineAfter(data, "render ").None?
    ensures Classify(data, op) == (if VariableCommand(data, op).Some? then VariableCommand(data, op).value else Fallback)
  {
  }

  /** The variable commands read `create var W` only with the OP flag. */
  lemma VariableReadsCreateVar(data: string, op: bool)
    requires HasPrefixFold(data, "create var ") && IsWord(data[11..])
    ensures VariableCommand(data, op) == (if op then Some(CreateVar(data[11..])) else None)
  {
    PrefixMismatch(data, "list vars", 0);
    PrefixMismatch(data, "list var ", 0);
    PrefixMismatch(data, "remove value ", 0);
    PrefixMismatch(data, "add value ", 0);
    PrefixMismatch(data, "remove var ", 0);
  }

  /** Past the variable commands, `create var W` is no statement and no
      render request, so it reads as create var or as nothing. */
  lemma CreateVarChain(data: string, op: bool)
    requires HasPrefixFold(data, "create var ") && IsWord(data[11..])
    requires StatementMatch(data).None?
    ensures Classify(data, op) == (if op then CreateVar(data[11..]) else Fallback)
  {
    assert Fold(data[0]) == 'c';
    CorePassesOver(data);
    InventoryPassesOver(data);
    assert LineAfter(data, "render ").None? by {
      PrefixMismatch(data, "render ", 0);
    }
    VariableReadsCreateVar(data, op);
    VariableChain(data, op);
  }

  /** Creating a variable needs the OP flag; without it `create var W` runs
      through the whole chain and reaches the fallback. */
  lemma CreateVarNeedsOp(w: string)
    requires IsWord(w)
    ensures Classify("create var " + w, true) == CreateVar(w)
    ensures Classify("create var " + w, false) == Fallback
  {
    var data := "create var " + w;
    PrefixOfPattern("create var ", w);
    assert data[11..] == w;
    NoStatementInVarCommand("create var ", w);
    CreateVarChain(data, true);
    CreateVarChain(data, false);
  }

  /** The variable commands read `remove var W` only with the OP flag. */
  lemma VariableReadsRemoveVar(data: string, op: bool)
    requires HasPrefixFold(data, "remove var ") && IsWord(data[11..])
    ensures VariableCommand(data, op) == (if op then Some(RemoveVar(data[11..])) else None)
  {
    PrefixMismatch(data, "list vars", 0);
    PrefixMismatch(data, "list var ", 0);
    PrefixMismatch(data, "remove value ", 9);
    PrefixMismatch(data, "add value ", 0);
    PrefixMismatch(data, "create var ", 0);
  }

  /** Past the variable commands, `remove var W` is no statement and no
      render request, so it reads as remove var or as nothing. */
  lemma RemoveVarChain(data: string, op: bool)
    requires HasPrefixFold(data, "remove var ") && IsWord(data[11..])
    requires StatementMatch(data).None?
    ensures Classify(data, op) == (if op then RemoveVar(data[11..]) else Fallback)
  {
    assert Fold(data[0]) == 'r';
    CorePassesOver(data);
    InventoryPassesOver(data);
    assert LineAfter(data, "render ").None? by {
      PrefixMismatch(data, "render ", 2);
    }
    VariableReadsRemoveVar(data, op);
    VariableChain(data, op);
  }

  /** Removing a variable needs the OP flag; without it `remove var W` runs
      through the whole chain and reaches the fallback. */
  lemma RemoveVarNeedsOp(w: string)
    requires IsWord(w)
    ensures Classify("remove var " + w, true) == RemoveVar(w)
    ensures Classify("remove var " + w, false) == Fallback
  {
    var data := "remove var " + w;
    PrefixOfPattern("remove var ", w);
    assert data[11..] == w;
    NoStatementInVarCommand("remove var ", w);
    RemoveVarChain(data, true);
    RemoveVarChain(data, false);
  }

  // ---------------------------------------------------------------------
  // Reading the other commands
  // ---------------------------------------------------------------------

  /** `literal K` reads as literal with no index and the key K. */
  lemma LiteralPlainRead(key: string, op: bool)
    requires NoNewline(key)
    ensures Classify("literal " + key, op) == Literal("", key)
  {
    var data := "literal " + key;
    PrefixOfPattern("literal", " " + key);
    assert data == "literal" + (" " + key);
    assert data[7..] == " " + key && data[8..] == key;
    assert LiteralMatch(data) == Some(("", key));
    ChainStopsAtCore(data, op);
  }

  /** The literal pattern takes `literal[N] K` apart into the digits N and
      the key K. */
  lemma LiteralIndexedMatch(digits: string, key: string)
    requires |digits| > 0 && forall i :: 0 <= i < |digits| ==> IsDigit(digits[i])
    requires NoNewline(key)
    ensures LiteralMatch("literal[" + digits + "] " + key) == Some((digits, key))
  {
    var data := "literal[" + digits + "] " + key;
    var t := "[" + digits + "] " + key;
    var d := |digits|;
    PrefixOfPattern("literal", t);
    assert data == "literal" + t;
    assert data[7..] == t;
    assert t[1..] == digits + "] " + key;
    assert forall i :: 0 <= i < d ==> t[1..][i] == digits[i];
    SpanStopsAt(t[1..], Digit, d);
    assert t[d + 1] == ']' && t[d + 2] == ' ';
    assert t[1..d + 1] == digits && t[d + 3..] == key;
  }

  /** `literal[N] K`, for digits N, reads as literal with the index N and
      the key K. */
  lemma LiteralIndexedRead(digits: string, key: string, op: bool)
    requires |digits| > 0 && forall i :: 0 <= i < |digits| ==> IsDigit(digits[i])
    requires NoNewline(key)
    ensures Classify("literal[" + digits + "] " + key, op) == Literal(digits, key)
  {
    LiteralIndexedMatch(digits, key);
    ChainStopsAtCore("literal[" + digits + "] " + key, op);
  }

  /** The first group reads nothing that begins with `add value `. */
  lemma CoreSkipsAddValue(data: string)
    requires HasPrefixFold(data, "add value ")
    ensures CoreCommand(data).None?
  {
    PrefixMismatch(data, "literal", 0);
    PrefixMismatch(data, "undo", 0);
    PrefixMismatch(data, "undo last", 0);
    PrefixMismatch(data, "merge ", 0);
    PrefixMismatch(data, "alias ", 1);
    PrefixMismatch(data, "lookup ", 0);
    PrefixMismatch(data, "forget ", 0);
    PrefixMismatch(data, "what was that", 0);
    PrefixMismatch(data, "what was that?", 0);
    CoreNone(data);
  }

  /** `add value W T`, for a word W and a one-line text T, reads as add
      value of T to W whatever the OP flag. */
  lemma AddValueRead(name: string, text: string, op: bool)
    requires IsWord(name) && NoNewline(text)
    ensures Classify("add value " + name + " " + text, op) == AddValue(name, text)
  {
    var data := "add value " + name + " " + text;
    var rest := name + " " + text;
    PrefixOfPattern("add value ", rest);
    assert data == "add value " + rest;
    assert data[10..] == rest;
    assert forall i :: 0 <= i < |name| ==> rest[i] == name[i];
    SpanStopsAt(rest, Word, |name|);
    assert rest[..|name|] == name && rest[|name| + 1..] == text;
    assert WordAndText(data, "add value ") == Some((name, text));
    CoreSkipsAddValue(data);
    PrefixMismatch(data, "list vars", 0);
    PrefixMismatch(data, "list var ", 0);
    PrefixMismatch(data, "remove value ", 0);
    assert VariableCommand(data, op) == Some(AddValue(name, text));
  }

  /** The first group reads nothing that begins with `list var `. */
  lemma CoreSkipsListVar(data: string)
    requires HasPrefixFold(data, "list var ")
    ensures CoreCommand(data).None?
  {
    PrefixMismatch(data, "literal", 2);
    PrefixMismatch(data, "undo", 0);
    PrefixMismatch(data, "undo last", 0);
    PrefixMismatch(data, "merge ", 0);
    PrefixMismatch(data, "alias ", 0);
    PrefixMismatch(data, "lookup ", 1);
    PrefixMismatch(data, "forget ", 0);
    PrefixMismatch(data, "what was that", 0);
    PrefixMismatch(data, "what was that?", 0);
    CoreNone(data);
  }

  /** `list var W`, for a word W, reads as list var of W whatever the OP
      flag. */
  lemma ListVarRead(name: string, op: bool)
    requires IsWord(name)
    ensures Classify("list var " + name, op) == ListVar(name)
  {
    var data := "list var " + name;
    PrefixOfPattern("list var ", name);
    assert data[9..] == name;
    assert WordAfter(data, "list var ") == Some(name);
    CoreSkipsListVar(data);
    PrefixMismatch(data, "list vars", 8);
    assert VariableCommand(data, op) == Some(ListVar(name));
  }

  /** Past the first two groups, an inventory command ends the chain. */
  lemma ChainStopsAtInventory(data: string, op: bool)
    requires CoreCommand(data).None? && VariableCommand(data, op).None? && InventoryCommand(data).Some?
    ensures Classify(data, op) == InventoryCommand(data).value
  {
  }

  /** `inventory` and `detailed inventory` are read by neither of the first
      two groups. */
  lemma GroupsSkipInventoryWord(data: string, op: bool)
    requires EqualsFold(data, "inventory") || EqualsFold(data, "detailed inventory")
    ensures CoreCommand(data).None? && VariableCommand(data, op).None?
  {
    CorePassesOver(data);
    PrefixMismatch(data, "list vars", 0);
    PrefixMismatch(data, "list var ", 0);
    PrefixMismatch(data, "remove value ", 0);
    PrefixMismatch(data, "add value ", 0);
    PrefixMismatch(data, "create var ", 0);
    PrefixMismatch(data, "remove var ", 0);
  }

  /** The first group reads nothing that begins with `list item`. */
  lemma CoreSkipsListItem(data: string)
    requires HasPrefixFold(data, "list item")
    ensures CoreCommand(data).None?
  {
    PrefixMismatch(data, "literal", 2);
    PrefixMismatch(data, "undo", 0);
    PrefixMismatch(data, "undo last", 0);
    PrefixMismatch(data, "merge ", 0);
    PrefixMismatch(data, "alias ", 0);
    PrefixMismatch(data, "lookup ", 1);
    PrefixMismatch(data, "forget ", 0);
    PrefixMismatch(data, "what was that", 0);
    PrefixMismatch(data, "what was that?", 0);
    CoreNone(data);
  }

  /** No variable command reads what begins with `list item`: the second
      word is not "vars" or "var". */
  lemma VariableSkipsListItem(data: string, op: bool)
    requires HasPrefixFold(data, "list item")
    ensures VariableCommand(data, op).None?
  {
    PrefixMismatch(data, "list vars", 5);
    PrefixMismatch(data, "list var ", 5);
    PrefixMismatch(data, "remove value ", 0);
    PrefixMismatch(data, "add value ", 0);
    PrefixMismatch(data, "create var ", 0);
    PrefixMismatch(data, "remove var ", 0);
  }

  /** The four inventory phrases, in any letter case and whatever the OP
      flag: `detailed inventory` and `list item details` are the full
      inventory, `inventory` and `list items` the plain one. */
  lemma InventoryRead(data: string, op: bool)
    requires || EqualsFold(data, "detailed inventory") || EqualsFold(data, "list item details")
             || EqualsFold(data, "inventory") || EqualsFold(data, "list items")
    ensures Classify(data, op) ==
      if EqualsFold(data, "detailed inventory") || EqualsFold(data, "list item details") then FullInventory else Inventory
  {
    if EqualsFold(data, "inventory") || EqualsFold(data, "detailed inventory") {
      GroupsSkipInventoryWord(data, op);
    } else {
      assert HasPrefixFold(data, "list item") by {
        forall i | 0 <= i < 9 ensures Fold(data[i]) == "list item"[i] {
          assert "list items"[i] == "list item details"[i] == "list item"[i];
        }
      }
      CoreSkipsListItem(data);
      VariableSkipsListItem(data, op);
    }
    ChainStopsAtInventory(data, op);
  }
}

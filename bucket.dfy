/** The stored entities of the bucket plugin, the transactions its callback
    runs against the two collections `facts` and `vars`, and the callback as
    one transition from a store and a message to a new store and a reply. */
module Bucket {
  import opened Text
  import opened Grammar

  /** One response of a fact (bucketFactResponse). */
  datatype FactResponse = FactResponse(text: string, creator: string, verb: string)

  /** A fact: its responses in insertion order (bucketFact). */
  datatype Fact = Fact(responses: seq<FactResponse>)

  /** One value of a variable (bucketValue). */
  datatype Value = Value(text: string, creator: string)

  /** A variable: its values in insertion order and who created it (bucketVariable). */
  datatype Variable = Variable(values: seq<Value>, creator: string)

  /** The two collections, each keyed by the lower-cased name. */
  datatype Store = Store(facts: map<string, Fact>, vars: map<string, Variable>)

  /** What one call of the callback sends back. */
  datatype Reply =
    | Silent                   // the branch sends nothing
    | Say(text: string)        // b.Reply
    | Mention(text: string)    // b.MentionReply with a rendered string
    | MentionFact(fact: Fact)  // b.MentionReply of the fact printed with %+v
    | Failure                  // add value's reply built from the storage error

  /** The parts of bucketMessage the callback reads: the trimmed text, the
      sender, and whether the sender holds one of the admin modes. */
  datatype Message = Message(data: string, who: string, op: bool)

  datatype Outcome = Outcome(store: Store, reply: Reply)

  // ---------------------------------------------------------------------
  // Reading a key: `out := &bucketX{}; bucket.Get(key, out)`, error ignored
  // ---------------------------------------------------------------------

  /** The stored fact, or the empty struct when the key is missing. */
  function FactAt(facts: map<string, Fact>, key: string): (f: Fact)
  {
    if key in facts then facts[key] else Fact([])
  }

  /** The stored variable, or the empty struct (no values, no creator) when
      the key is missing. */
  function VarAt(vars: map<string, Variable>, key: string): (v: Variable)
  {
    if key in vars then vars[key] else Variable([], "")
  }

  // ---------------------------------------------------------------------
  // Verb normalisation
  // ---------------------------------------------------------------------

  /** A verb the normalisation can be applied to: `verb[0]` needs a first
      character and `verb[1:len(verb)-1]` needs two when it is '<'. */
  predicate Normalizable(verb: string)
  {
    |verb| > 0 && (verb[0] == '<' ==> |verb| >= 2)
  }

  /** The exact string "is also" becomes "is", a bracketed custom verb loses
      its brackets, anything else is kept as it is (the comparison is case
      sensitive). */
  function NormalizeVerb(verb: string): (v: string)
    requires Normalizable(verb)
  {
    if verb == "is also" then "is"
    else if verb[0] == '<' then verb[1..|verb| - 1]
    else verb
  }

  // ---------------------------------------------------------------------
  // The forget-is splice
  // ---------------------------------------------------------------------

  predicate Matches(r: FactResponse, text: string, verb: string)
  {
    r.text == text && r.verb == verb
  }

  /** The position of the first response whose text and verb both match, or
      |rs| when there is none. */
  function FirstMatch(rs: seq<FactResponse>, text: string, verb: string): (k: nat)
    ensures k <= |rs|
    ensures forall j :: 0 <= j < k ==> !Matches(rs[j], text, verb)
    ensures k < |rs| ==> Matches(rs[k], text, verb)
  {
    if rs == [] then 0
    else if Matches(rs[0], text, verb) then 0
    else 1 + FirstMatch(rs[1..], text, verb)
  }

  /** The responses once the first match, if any, is spliced out. */
  function Forgotten(rs: seq<FactResponse>, text: string, verb: string): (rest: seq<FactResponse>)
  {
    var k := FirstMatch(rs, text, verb);
    if k < |rs| then rs[..k] + rs[k + 1..] else rs
  }

  /** The number of responses matching text and verb. */
  function Occurrences(rs: seq<FactResponse>, text: string, verb: string): (n: nat)
  {
    if rs == [] then 0
    else (if Matches(rs[0], text, verb) then 1 else 0) + Occurrences(rs[1..], text, verb)
  }

  /** The loop of the forget-is transaction: walk the responses, splice out
      the first one matching both text and verb, and stop. */
  method SpliceFirstMatch(rs: seq<FactResponse>, text: string, verb: string) returns (found: bool, rest: seq<FactResponse>)
    ensures found <==> exists i :: 0 <= i < |rs| && Matches(rs[i], text, verb)
    ensures rest == Forgotten(rs, text, verb)
  {
    found := false;
    rest := rs;
    var k := 0;
    while k < |rs|
      invariant 0 <= k <= |rs|
      invariant forall j :: 0 <= j < k ==> !Matches(rs[j], text, verb)
      invariant !found && rest == rs
    {
      if Matches(rs[k], text, verb) {
        found := true;
        rest := rs[..k] + rs[k + 1..];
        break;
      }
      k := k + 1;
    }
  }

  // ---------------------------------------------------------------------
  // The list var text
  // ---------------------------------------------------------------------

  /** The buffer list var builds: every value's text, in order, each preceded
      by ", " (the loop's `first` flag is never set, so also the first). */
  function ListText(values: seq<Value>): (data: string)
  {
    if values == [] then "" else ListText(values[..|values| - 1]) + ", " + values[|values| - 1].text
  }

  /** The loop of the list var branch writing into its bytes.Buffer. */
  method FormatValues(values: seq<Value>) returns (data: string)
    ensures data == ListText(values)
  {
    data := "";
    var first := false;
    var i := 0;
    while i < |values|
      invariant 0 <= i <= |values|
      invariant data == ListText(values[..i])
    {
      if !first {
        data := data + ", ";
      }
      data := data + values[i].text;
      assert values[..i + 1][..i] == values[..i];
      i := i + 1;
    }
    assert values[..|values|] == values;
  }

  // ---------------------------------------------------------------------
  // Rendering: `os.Expand` with the variable-lookup callback
  // ---------------------------------------------------------------------

  /** What the callback maps a reference to: "" when the key has no values
      (a missing key reads as the empty struct), otherwise the value the
      random draw picks. The key is used exactly as written. */
  function Substitute(vars: map<string, Variable>, name: string, roll: nat): (r: string)
  {
    var values := VarAt(vars, name).values;
    if |values| == 0 then "" else values[roll % |values|].text
  }

  /** `os.Expand` over `$name` references: a '$' followed by a name
      character starts a reference running over the longest name; any other
      '$' stays as it is. rng(nth) is the random draw for the nth reference,
      and substituted text is not expanded again. */
  function Expand(s: string, vars: map<string, Variable>, rng: nat -> nat, nth: nat): (r: string)
    decreases |s|
  {
    if |s| == 0 then ""
    else if s[0] == '$' && |s| > 1 && IsAlnum(s[1]) then
      var w := Span(s[1..], Alnum);
      Substitute(vars, s[1..1 + w], rng(nth)) + Expand(s[1 + w..], vars, rng, nth + 1)
    else [s[0]] + Expand(s[1..], vars, rng, nth)
  }

  // ---------------------------------------------------------------------
  // Properties of the pieces
  // ---------------------------------------------------------------------

  /** On every verb the grammar can capture, the normalisation is defined;
      a bracketed verb loses exactly its brackets and names a word, and any
      other captured verb (a spelling of "is" or "are") is stored as typed. */
  lemma NormalizedVerb(verb: string)
    requires IsVerbToken(verb) && !EqualsFold(verb, "is also")
    ensures Normalizable(verb)
    ensures verb[0] == '<' ==> "<" + NormalizeVerb(verb) + ">" == verb && IsWord(NormalizeVerb(verb))
    ensures verb[0] != '<' ==> NormalizeVerb(verb) == verb && (EqualsFold(verb, "is") || EqualsFold(verb, "are"))
  {
    if verb[0] == '<' {
      assert verb == [verb[0]] + verb[1..|verb| - 1] + [verb[|verb| - 1]];
    }
  }

  /** Normalising a normalised verb changes nothing more. */
  lemma NormalizeVerbIdempotent(verb: string)
    requires IsVerbToken(verb) && !EqualsFold(verb, "is also")
    ensures Normalizable(NormalizeVerb(verb))
    ensures NormalizeVerb(NormalizeVerb(verb)) == NormalizeVerb(verb)
  {
    NormalizedVerb(verb);
    var v := NormalizeVerb(verb);
    if verb[0] == '<' {
      assert IsWordChar(v[0]);
      if |v| >= 3 {
        assert IsWordChar(v[2]) && v[2] != ' ';
      }
      assert v != "is also";
    }
  }

  /** The occurrence count splits over concatenation. */
  lemma {:induction false} OccurrencesAppend(a: seq<FactResponse>, b: seq<FactResponse>, text: string, verb: string)
    ensures Occurrences(a + b, text, verb) == Occurrences(a, text, verb) + Occurrences(b, text, verb)
  {
    if a != [] {
      assert (a + b)[1..] == a[1..] + b;
      OccurrencesAppend(a[1..], b, text, verb);
    } else {
      assert a + b == b;
    }
  }

  /** Some response matches exactly when the count is positive. */
  lemma {:induction false} OccurrencesPositive(rs: seq<FactResponse>, text: string, verb: string)
    ensures Occurrences(rs, text, verb) > 0 <==> exists i :: 0 <= i < |rs| && Matches(rs[i], text, verb)
  {
    if rs != [] {
      OccurrencesPositive(rs[1..], text, verb);
      if Occurrences(rs[1..], text, verb) > 0 {
        var i :| 0 <= i < |rs[1..]| && Matches(rs[1..][i], text, verb);
        assert Matches(rs[i + 1], text, verb);
      }
      if !Matches(rs[0], text, verb) && exists i :: 0 <= i < |rs| && Matches(rs[i], text, verb) {
        var i :| 0 <= i < |rs| && Matches(rs[i], text, verb);
        assert Matches(rs[1..][i - 1], text, verb);
      }
    }
  }

  /** Forgetting removes one matching response when there is one, keeps the
      others in their order, and otherwise changes nothing. */
  lemma ForgottenRemovesOne(rs: seq<FactResponse>, text: string, verb: string)
    ensures var k := FirstMatch(rs, text, verb);
      k < |rs| ==> Forgotten(rs, text, verb) == rs[..k] + rs[k + 1..] && Matches(rs[k], text, verb)
    ensures Occurrences(rs, text, verb) > 0 ==>
      |Forgotten(rs, text, verb)| == |rs| - 1 &&
      Occurrences(Forgotten(rs, text, verb), text, verb) == Occurrences(rs, text, verb) - 1
    ensures Occurrences(rs, text, verb) == 0 ==> Forgotten(rs, text, verb) == rs
  {
    var k := FirstMatch(rs, text, verb);
    OccurrencesPositive(rs, text, verb);
    if k < |rs| {
      assert rs == rs[..k] + [rs[k]] + rs[k + 1..];
      OccurrencesAppend(rs[..k] + [rs[k]], rs[k + 1..], text, verb);
      OccurrencesAppend(rs[..k], [rs[k]], text, verb);
      OccurrencesAppend(rs[..k], rs[k + 1..], text, verb);
      assert Occurrences([rs[k]], text, verb) == 1;
    }
  }

  /** The list var text of a concatenation is the concatenation of the texts. */
  lemma {:induction false} ListTextAppend(a: seq<Value>, b: seq<Value>)
    ensures ListText(a + b) == ListText(a) + ListText(b)
  {
    if b != [] {
      var last := b[|b| - 1];
      assert (a + b)[..|a + b| - 1] == a + b[..|b| - 1];
      ListTextAppend(a, b[..|b| - 1]);
    } else {
      assert a + b == a;
    }
  }

  /** Each value's text is preceded by ", ", the first one's included. */
  lemma ListTextCons(v: Value, rest: seq<Value>)
    ensures ListText([v] + rest) == ", " + v.text + ListText(rest)
  {
    ListTextAppend([v], rest);
    assert [v][..0] == [];
  }

  /** A string without '$' is rendered unchanged. */
  lemma {:induction false} ExpandNoReference(s: string, vars: map<string, Variable>, rng: nat -> nat, nth: nat)
    requires forall i :: 0 <= i < |s| ==> s[i] != '$'
    ensures Expand(s, vars, rng, nth) == s
  {
    if |s| > 0 {
      ExpandNoReference(s[1..], vars, rng, nth);
    }
  }

  /** A lone reference `$name` renders as what the callback returns for the
      name, taken as written. */
  lemma ExpandOneReference(name: string, vars: map<string, Variable>, rng: nat -> nat, nth: nat)
    requires |name| > 0 && forall i :: 0 <= i < |name| ==> IsAlnum(name[i])
    ensures Expand("$" + name, vars, rng, nth) == Substitute(vars, name, rng(nth))
  {
    var s := "$" + name;
    assert s[1..] == name;
    var w := Span(name, Alnum);
    assert w == |name|;
    assert s[1..1 + w] == name;
  }

  /** The callback yields "" for a name with no values and otherwise the text
      of one of its values; with a single value the draw does not matter. */
  lemma SubstituteChoice(vars: map<string, Variable>, name: string, roll: nat)
    ensures |VarAt(vars, name).values| == 0 ==> Substitute(vars, name, roll) == ""
    ensures |VarAt(vars, name).values| > 0 ==>
      exists i :: 0 <= i < |VarAt(vars, name).values| && Substitute(vars, name, roll) == VarAt(vars, name).values[i].text
    ensures |VarAt(vars, name).values| == 1 ==> Substitute(vars, name, roll) == VarAt(vars, name).values[0].text
  {
    var values := VarAt(vars, name).values;
    if |values| > 0 {
      var i := roll % |values|;
      assert Substitute(vars, name, roll) == values[i].text;
    }
  }

  /** Every key of a store written by the callback is lower-cased. */
  predicate LowerKeys(st: Store)
  {
    && (forall k :: k in st.facts ==> Lower(k) == k)
    && (forall k :: k in st.vars ==> Lower(k) == k)
  }

  /** Render looks variables up by the name as written, which is never
      lower-cased: a reference holding an ASCII capital finds no variable and
      renders as "". */
  lemma CapitalizedReferenceIsEmpty(st: Store, name: string, roll: nat, i: nat)
    requires LowerKeys(st)
    requires i < |name| && IsUpper(name[i])
    ensures Substitute(st.vars, name, roll) == ""
  {
    UpperNotLowered(name, i);
  }

  // ---------------------------------------------------------------------
  // The transactions
  // ---------------------------------------------------------------------

  /** The statement transaction: the new response goes at the end of the
      key's list, which starts empty when the key is missing. */
  function AppendResponse(facts: map<string, Fact>, key: string, resp: FactResponse): (r: map<string, Fact>)
    ensures r.Keys == facts.Keys + {key}
    ensures r[key].responses == FactAt(facts, key).responses + [resp]
    ensures forall k :: k in facts && k != key ==> r[k] == facts[k]
  {
    facts[key := Fact(FactAt(facts, key).responses + [resp])]
  }

  /** The forget-is transaction: the key is written back with the first
      match spliced out, even when nothing matched or nothing is left. */
  function ForgetResponse(facts: map<string, Fact>, key: string, text: string, verb: string): (r: map<string, Fact>)
    ensures r.Keys == facts.Keys + {key}
    ensures r[key].responses == Forgotten(FactAt(facts, key).responses, text, verb)
    ensures forall k :: k in facts && k != key ==> r[k] == facts[k]
  {
    facts[key := Fact(Forgotten(FactAt(facts, key).responses, text, verb))]
  }

  /** The add value transaction. None when `Get` fails on a missing key, which
      rolls the transaction back. */
  function AppendValue(vars: map<string, Variable>, key: string, v: Value): (r: Option<map<string, Variable>>)
    ensures r.None? <==> key !in vars
    ensures r.Some? ==> r.value.Keys == vars.Keys
    ensures r.Some? ==> r.value[key] == Variable(vars[key].values + [v], vars[key].creator)
    ensures r.Some? ==> forall k :: k in vars && k != key ==> r.value[k] == vars[k]
  {
    if key in vars then Some(vars[key := vars[key].(values := vars[key].values + [v])]) else None
  }

  /** The create var transaction: the creator is set only when it was empty,
      and the variable is written back either way. */
  function CreateVariable(vars: map<string, Variable>, key: string, who: string): (r: map<string, Variable>)
    ensures VarAt(vars, key).creator == "" ==> r == vars[key := Variable(VarAt(vars, key).values, who)]
    ensures VarAt(vars, key).creator != "" ==> r == vars
  {
    var out := VarAt(vars, key);
    vars[key := if out.creator == "" then out.(creator := who) else out]
  }

  /** The remove var transaction: the key is deleted whatever it held. */
  function RemoveVariable(vars: map<string, Variable>, key: string): (r: map<string, Variable>)
    ensures key !in r
    ensures forall k :: k != key ==> (k in r <==> k in vars) && (k in r ==> r[k] == vars[k])
  {
    vars - {key}
  }

  // ---------------------------------------------------------------------
  // One call of the callback
  // ---------------------------------------------------------------------

  /** The effect and the reply of the branch cmd for the sender who; rng
      supplies the random draws of render. */
  function Execute(st: Store, cmd: Command, who: string, rng: nat -> nat): (o: Outcome)
    requires WellFormed(cmd)
  {
    match cmd
    case Literal(_, key) =>
      Outcome(st, MentionFact(FactAt(st.facts, Lower(key))))
    case ForgetIs(key, verb, text) =>
      var k := Lower(key);
      var v := NormalizeVerb(verb);
      var found := FirstMatch(FactAt(st.facts, k).responses, text, v) < |FactAt(st.facts, k).responses|;
      Outcome(st.(facts := ForgetResponse(st.facts, k, text, v)),
              if found then Say("Ok " + who + ", forgot " + key + " " + v + " " + text)
              else Say("Ok " + who + ", couldn't find " + key + " " + v + " " + text))
    case ListVar(name) =>
      var k := Lower(name);
      Outcome(st, Say("Ok " + who + ", " + k + " is " + ListText(VarAt(st.vars, k).values)))
    case AddValue(name, text) =>
      var k := Lower(name);
      var v := Value(text, who);
      var r := AppendValue(st.vars, k, v);
      if r.Some? then Outcome(st.(vars := r.value), Say("Ok " + who + ", added " + v.text + " to variable " + k))
      else Outcome(st, Failure)
    case CreateVar(name) =>
      var k := Lower(name);
      var created := VarAt(st.vars, k).creator == "";
      Outcome(st.(vars := CreateVariable(st.vars, k, who)),
              if created then Say("Ok " + who + ", created variable " + k)
              else Say("Ok " + who + ", variable " + k + " already created"))
    case RemoveVar(name) =>
      var k := Lower(name);
      var existed := VarAt(st.vars, k).creator != "";
      Outcome(st.(vars := RemoveVariable(st.vars, k)),
              if existed then Say("Ok " + who + ", removed variable " + k)
              else Say("Ok " + who + ", variable " + k + " doesn't exist"))
    case Statement(key, verb, text) =>
      var resp := FactResponse(text, who, NormalizeVerb(verb));
      Outcome(st.(facts := AppendResponse(st.facts, Lower(key), resp)), Say("Ok " + who + ", " + key + " " + resp.verb + " " + resp.text))
    case Render(text) =>
      Outcome(st, Mention(Expand(text, st.vars, rng, 0)))
    case Undo | Merge | Alias | Lookup | Forget | WhatWasThat | ListVars | RemoveValue | FullInventory | Inventory | Fallback =>
      Outcome(st, Silent)
  }

  /** One call of the callback: classify, then run the selected branch. */
  function Step(st: Store, msg: Message, rng: nat -> nat): (o: Outcome)
  {
    Execute(st, Classify(msg.data, msg.op), msg.who, rng)
  }
}

/** What one call, or a pair of calls, of the mention callback does to the
    two collections and what it replies: the properties the branches of the
    callback promise, stated over the transition Step. */
module Laws {
  import opened Text
  import opened Grammar
  import opened Bucket

  /** The branches that only read (literal, list var, render and the empty
      ones) leave both collections as they were. */
  lemma ReadOnlyBranches(st: Store, msg: Message, rng: nat -> nat)
    ensures var c := Classify(msg.data, msg.op);
      !(c.ForgetIs? || c.AddValue? || c.CreateVar? || c.RemoveVar? || c.Statement?) ==>
      Step(st, msg, rng).store == st
  {
  }

  /** Once the classifier's verdict on a message is known, the step is that
      command's branch. */
  lemma StepRunsCommand(st: Store, msg: Message, rng: nat -> nat, cmd: Command)
    requires Classify(msg.data, msg.op) == cmd
    ensures WellFormed(cmd) && Step(st, msg, rng) == Execute(st, cmd, msg.who, rng)
  {
  }

  /** The statement branch appends one response, made by the sender with the
      normalised verb, to the end of the lower-cased key's list; nothing
      else changes, and the reply echoes the key as typed. */
  lemma StatementEffect(st: Store, key: string, verb: string, text: string, who: string, rng: nat -> nat)
    requires IsVerbToken(verb) && !EqualsFold(verb, "is also")
    ensures var o := Execute(st, Statement(key, verb, text), who, rng);
      && FactAt(o.store.facts, Lower(key)).responses
         == FactAt(st.facts, Lower(key)).responses + [FactResponse(text, who, NormalizeVerb(verb))]
      && (forall k :: k in st.facts && k != Lower(key) ==> o.store.facts[k] == st.facts[k])
      && o.store.facts.Keys == st.facts.Keys + {Lower(key)}
      && o.store.vars == st.vars
      && o.reply == Say("Ok " + who + ", " + key + " " + NormalizeVerb(verb) + " " + text)
  {
  }

  /** Teaching `K V T`, for a key the first group does not claim, runs
      the statement branch on exactly those captures. */
  lemma StatementStep(st: Store, key: string, verb: string, text: string, who: string, op: bool, rng: nat -> nat)
    requires |key| > 0 && forall i :: 0 <= i < |key| ==> key[i] != ' ' && key[i] != '\n'
    requires !CommandKey(key)
    requires IsVerbToken(verb) && !EqualsFold(verb, "is also")
    requires |text| > 0 && NoNewline(text)
    ensures Step(st, Message(key + " " + verb + " " + text, who, op), rng) == Execute(st, Statement(key, verb, text), who, rng)
  {
    StatementClassified(key, verb, text, op);
    StepRunsCommand(st, Message(key + " " + verb + " " + text, who, op), rng, Statement(key, verb, text));
  }

  /** `forget K V T` right after `K V T` finds a response to delete, and
      leaves the key with as many responses, and as many copies of that
      one, as before the statement. (The copy removed is the first match,
      which need not be the one just added.) */
  lemma StatementThenForget(st: Store, key: string, verb: string, text: string,
                            who: string, who2: string, op: bool, op2: bool, rng: nat -> nat)
    requires |key| > 0 && forall i :: 0 <= i < |key| ==> key[i] != ' ' && key[i] != '\n'
    requires !CommandKey(key)
    requires IsVerbToken(verb) && !EqualsFold(verb, "is also")
    requires |text| > 0 && NoNewline(text)
    ensures
      var data := key + " " + verb + " " + text;
      var k := Lower(key);
      var v := NormalizeVerb(verb);
      var o1 := Step(st, Message(data, who, op), rng);
      var o2 := Step(o1.store, Message("forget " + data, who2, op2), rng);
      && o2.reply == Say("Ok " + who2 + ", forgot " + key + " " + v + " " + text)
      && |FactAt(o2.store.facts, k).responses| == |FactAt(st.facts, k).responses|
      && Occurrences(FactAt(o2.store.facts, k).responses, text, v) == Occurrences(FactAt(st.facts, k).responses, text, v)
      && o2.store.vars == st.vars
  {
    NormalizedVerb(verb);
    var data := key + " " + verb + " " + text;
    var k := Lower(key);
    var v := NormalizeVerb(verb);
    var o1 := Step(st, Message(data, who, op), rng);
    StatementStep(st, key, verb, text, who, op, rng);
    StatementEffect(st, key, verb, text, who, rng);
    StatementRoundTrip(key, verb, text);
    ForgetIsBeforeStatement(data, op2);
    StepRunsCommand(o1.store, Message("forget " + data, who2, op2), rng, ForgetIs(key, verb, text));
    ForgetStep(o1.store, key, verb, text, who2, rng);
    var before := FactAt(st.facts, k).responses;
    var middle := FactAt(o1.store.facts, k).responses;
    var resp := FactResponse(text, who, v);
    assert middle == before + [resp];
    OccurrencesAppend(before, [resp], text, v);
    assert Occurrences([resp], text, v) == 1;
    ForgottenRemovesOne(middle, text, v);
    OccurrencesPositive(middle, text, v);
  }

  /** forget-is on a key that holds nothing still writes the key back, with
      an empty response list, and replies that it could not find the fact. */
  lemma ForgetWritesBack(st: Store, key: string, verb: string, text: string, who: string, rng: nat -> nat)
    requires IsVerbToken(verb) && !EqualsFold(verb, "is also")
    requires Lower(key) !in st.facts
    ensures var o := Execute(st, ForgetIs(key, verb, text), who, rng);
      && o.store == st.(facts := st.facts[Lower(key) := Fact([])])
      && o.reply == Say("Ok " + who + ", couldn't find " + key + " " + NormalizeVerb(verb) + " " + text)
  {
    NormalizedVerb(verb);
  }

  /** forget-is removes a response exactly when one with the same text and
      the normalised verb is stored, and then exactly one. */
  lemma ForgetStep(st: Store, key: string, verb: string, text: string, who: string, rng: nat -> nat)
    requires IsVerbToken(verb) && !EqualsFold(verb, "is also")
    ensures
      var k := Lower(key);
      var v := NormalizeVerb(verb);
      var rs := FactAt(st.facts, k).responses;
      var o := Execute(st, ForgetIs(key, verb, text), who, rng);
      && (o.reply == Say("Ok " + who + ", forgot " + key + " " + v + " " + text)
          <==> exists i :: 0 <= i < |rs| && Matches(rs[i], text, v))
      && Occurrences(FactAt(o.store.facts, k).responses, text, v) == (if Occurrences(rs, text, v) > 0 then Occurrences(rs, text, v) - 1 else 0)
      && o.store.vars == st.vars
  {
    NormalizedVerb(verb);
    var k := Lower(key);
    var v := NormalizeVerb(verb);
    var rs := FactAt(st.facts, k).responses;
    ForgottenRemovesOne(rs, text, v);
    OccurrencesPositive(rs, text, v);
    if Occurrences(rs, text, v) == 0 {
      assert "Ok " + who + ", couldn't find " + key + " " + v + " " + text != "Ok " + who + ", forgot " + key + " " + v + " " + text by {
        var n := |"Ok " + who + ", "|;
        assert ("Ok " + who + ", couldn't find " + key + " " + v + " " + text)[n] == 'c';
        assert ("Ok " + who + ", forgot " + key + " " + v + " " + text)[n] == 'f';
      }
    }
  }

  /** add value to a variable nobody created fails and changes nothing; to
      one that exists it appends the sender's value and keeps the creator. */
  lemma AddValueStep(st: Store, name: string, text: string, who: string, rng: nat -> nat)
    ensures var k := Lower(name); var o := Execute(st, AddValue(name, text), who, rng);
      && (k !in st.vars ==> o == Outcome(st, Failure))
      && (k in st.vars ==>
            && o.store.vars[k].values == st.vars[k].values + [Value(text, who)]
            && o.store.vars[k].creator == st.vars[k].creator
            && o.store.vars.Keys == st.vars.Keys
            && (forall n :: n in st.vars && n != k ==> o.store.vars[n] == st.vars[n])
            && o.store.facts == st.facts
            && o.reply == Say("Ok " + who + ", added " + text + " to variable " + k))
  {
  }

  /** Every stored variable has a creator. */
  predicate CreatorsKnown(st: Store)
  {
    forall k :: k in st.vars ==> st.vars[k].creator != ""
  }

  /** create var creates exactly when the variable has no creator yet and
      keeps its values. A second create then changes nothing and says so,
      unless the first one was by a sender with an empty name: the creator
      is still empty, so the second create takes the variable over and says
      "created variable" again. */
  lemma CreateVarStep(st: Store, name: string, who: string, who2: string, rng: nat -> nat)
    ensures var k := Lower(name);
      var o := Execute(st, CreateVar(name), who, rng);
      var o2 := Execute(o.store, CreateVar(name), who2, rng);
      && (o.reply == Say("Ok " + who + ", created variable " + k) <==> VarAt(st.vars, k).creator == "")
      && (VarAt(st.vars, k).creator == "" ==> o.store.vars[k] == Variable(VarAt(st.vars, k).values, who))
      && (VarAt(st.vars, k).creator != "" ==> o.store == st)
      && o.store.facts == st.facts
      && ((who != "" || VarAt(st.vars, k).creator != "") ==>
            o2 == Outcome(o.store, Say("Ok " + who2 + ", variable " + k + " already created")))
      && ((who == "" && VarAt(st.vars, k).creator == "") ==>
            o2.reply == Say("Ok " + who2 + ", created variable " + k) && o2.store.vars[k] == Variable(VarAt(st.vars, k).values, who2))
  {
    var k := Lower(name);
    if VarAt(st.vars, k).creator != "" {
      var n := |"Ok " + who + ", "|;
      assert ("Ok " + who + ", created variable " + k)[n] == 'c';
      assert ("Ok " + who + ", variable " + k + " already created")[n] == 'v';
    }
  }

  /** remove var deletes the variable whatever it held and replies that it
      removed it exactly when it had a creator; in a store where every
      variable has one, exactly when it was there. */
  lemma RemoveVarStep(st: Store, name: string, who: string, rng: nat -> nat)
    ensures var k := Lower(name); var o := Execute(st, RemoveVar(name), who, rng);
      && k !in o.store.vars
      && (forall n :: n != k ==> (n in o.store.vars <==> n in st.vars) && (n in st.vars ==> o.store.vars[n] == st.vars[n]))
      && o.store.facts == st.facts
      && (o.reply == Say("Ok " + who + ", removed variable " + k) <==> VarAt(st.vars, k).creator != "")
      && (CreatorsKnown(st) ==> (o.reply == Say("Ok " + who + ", removed variable " + k) <==> k in st.vars))
  {
    var k := Lower(name);
    if VarAt(st.vars, k).creator == "" {
      var n := |"Ok " + who + ", "|;
      assert ("Ok " + who + ", removed variable " + k)[n] == 'r';
      assert ("Ok " + who + ", variable " + k + " doesn't exist")[n] == 'v';
    }
  }

  /** Without the OP flag, `create var W` and `remove var W` reach the
      fallback: nothing changes and nothing is said. */
  lemma VarCommandsNeedOp(st: Store, w: string, who: string, rng: nat -> nat)
    requires IsWord(w)
    ensures Step(st, Message("create var " + w, who, false), rng) == Outcome(st, Silent)
    ensures Step(st, Message("remove var " + w, who, false), rng) == Outcome(st, Silent)
  {
    assert Classify("create var " + w, false) == Fallback by { CreateVarNeedsOp(w); }
    StepRunsCommand(st, Message("create var " + w, who, false), rng, Fallback);
    assert Classify("remove var " + w, false) == Fallback by { RemoveVarNeedsOp(w); }
    StepRunsCommand(st, Message("remove var " + w, who, false), rng, Fallback);
  }

  /** list var of a variable with values puts ", " before the first value
      too, since the loop's `first` flag is never set. */
  lemma ListVarLeadingSeparator(st: Store, name: string, who: string, rng: nat -> nat)
    requires |VarAt(st.vars, Lower(name)).values| > 0
    ensures var k := Lower(name); var vs := VarAt(st.vars, k).values;
      Execute(st, ListVar(name), who, rng) ==
      Outcome(st, Say("Ok " + who + ", " + k + " is " + ", " + vs[0].text + ListText(vs[1..])))
  {
    var vs := VarAt(st.vars, Lower(name)).values;
    assert vs == [vs[0]] + vs[1..];
    ListTextCons(vs[0], vs[1..]);
    var pre := "Ok " + who + ", " + Lower(name) + " is ";
    assert pre + (", " + vs[0].text + ListText(vs[1..])) == pre + ", " + vs[0].text + ListText(vs[1..]);
  }

  /** `literal K` and `literal[N] K` mention the fact stored under the
      lower-cased K, or the empty fact, and change nothing: the index is
      read but not used. */
  lemma LiteralStep(st: Store, digits: string, key: string, who: string, op: bool, rng: nat -> nat)
    requires |digits| > 0 && forall i :: 0 <= i < |digits| ==> IsDigit(digits[i])
    requires NoNewline(key)
    ensures Step(st, Message("literal " + key, who, op), rng) == Outcome(st, MentionFact(FactAt(st.facts, Lower(key))))
    ensures Step(st, Message("literal[" + digits + "] " + key, who, op), rng) == Step(st, Message("literal " + key, who, op), rng)
  {
    LiteralPlainRead(key, op);
    LiteralIndexedRead(digits, key, op);
  }

  /** `add value W T` runs the add value branch on W and T for any sender,
      OP or not. */
  lemma AddValueMessage(st: Store, name: string, text: string, who: string, op: bool, rng: nat -> nat)
    requires IsWord(name) && NoNewline(text)
    ensures Step(st, Message("add value " + name + " " + text, who, op), rng) == Execute(st, AddValue(name, text), who, rng)
    ensures Lower(name) !in st.vars ==> Step(st, Message("add value " + name + " " + text, who, op), rng) == Outcome(st, Failure)
  {
    AddValueRead(name, text, op);
    AddValueStep(st, name, text, who, rng);
  }

  /** `list var W` lists the values of the lower-cased W, or none when it is
      missing, and changes nothing. */
  lemma ListVarMessage(st: Store, name: string, who: string, op: bool, rng: nat -> nat)
    requires IsWord(name)
    ensures var k := Lower(name);
      Step(st, Message("list var " + name, who, op), rng) == Outcome(st, Say("Ok " + who + ", " + k + " is " + ListText(VarAt(st.vars, k).values)))
  {
    ListVarRead(name, op);
  }

  /** The four inventory phrases match in any letter case and do nothing:
      both collections stay and nothing is said. */
  lemma InventoryStep(st: Store, data: string, who: string, op: bool, rng: nat -> nat)
    requires || EqualsFold(data, "detailed inventory") || EqualsFold(data, "list item details")
             || EqualsFold(data, "inventory") || EqualsFold(data, "list items")
    ensures Step(st, Message(data, who, op), rng) == Outcome(st, Silent)
  {
    var c := Classify(data, op);
    assert c == FullInventory || c == Inventory by { InventoryRead(data, op); }
    StepRunsCommand(st, Message(data, who, op), rng, c);
  }

  /** render of a text without '$' mentions the text back unchanged. */
  lemma RenderPlainText(st: Store, text: string, who: string, rng: nat -> nat)
    requires forall i :: 0 <= i < |text| ==> text[i] != '$'
    ensures Execute(st, Render(text), who, rng) == Outcome(st, Mention(text))
  {
    ExpandNoReference(text, st.vars, rng, 0);
  }

  /** Keys are stored lower-cased, so no branch adds a key that is not. */
  lemma ExecuteKeepsLowerKeys(st: Store, cmd: Command, who: string, rng: nat -> nat)
    requires WellFormed(cmd) && LowerKeys(st)
    ensures LowerKeys(Execute(st, cmd, who, rng).store)
  {
    match cmd
    case ForgetIs(key, _, _) => LowerIdempotent(key);
    case AddValue(name, _) => LowerIdempotent(name);
    case CreateVar(name) => LowerIdempotent(name);
    case Statement(key, _, _) => LowerIdempotent(key);
    case _ =>
  }

  /** The stored keys stay lower-cased whatever message arrives. */
  lemma StepKeepsLowerKeys(st: Store, msg: Message, rng: nat -> nat)
    requires LowerKeys(st)
    ensures LowerKeys(Step(st, msg, rng).store)
  {
    var c := Classify(msg.data, msg.op);
    StepRunsCommand(st, msg, rng, c);
    ExecuteKeepsLowerKeys(st, c, msg.who, rng);
  }

  /** A named sender never leaves a variable without a creator. */
  lemma StepKeepsCreators(st: Store, msg: Message, rng: nat -> nat)
    requires CreatorsKnown(st) && msg.who != ""
    ensures CreatorsKnown(Step(st, msg, rng).store)
  {
    var c := Classify(msg.data, msg.op);
    StepRunsCommand(st, msg, rng, c);
  }
}

/** The plugin object: the two collections as map fields that every
    transaction reads into a fresh struct, changes and writes back, and the
    mention callback that dispatches one message. */
module Plugin {
  import opened Text
  import opened Grammar
  import opened Bucket

  /** The draws passed to the branches that make none, whose outcome does not
      depend on them. */
  function NoDraws(n: nat): nat
  {
    0
  }

  class BucketPlugin {
    /** The `facts` collection, keyed by lower-cased key. */
    var facts: map<string, Fact>
    /** The `vars` collection, keyed by lower-cased name. */
    var vars: map<string, Variable>

    /** A fresh database: both collections exist and are empty. */
    constructor ()
      ensures facts == map[] && vars == map[]
    {
      facts := map[];
      vars := map[];
    }

    function State(): Store
      reads this
    {
      Store(facts, vars)
    }

    /** The statement transaction: Get (a missing key leaves the struct
        empty), append the response, Put. */
    method UpdateStatement(key: string, resp: FactResponse)
      modifies this
      ensures facts == AppendResponse(old(facts), key, resp) && vars == old(vars)
    {
      var out := Fact([]);
      if key in facts {
        out := facts[key];
      }
      out := out.(responses := out.responses + [resp]);
      facts := facts[key := out];
    }

    /** The forget-is transaction: Get, splice out the first response whose
        text and verb both match, Put whatever is left. */
    method UpdateForget(key: string, text: string, verb: string) returns (found: bool)
      modifies this
      ensures found <==> FirstMatch(FactAt(old(facts), key).responses, text, verb) < |FactAt(old(facts), key).responses|
      ensures facts == ForgetResponse(old(facts), key, text, verb) && vars == old(vars)
    {
      var out := Fact([]);
      if key in facts {
        out := facts[key];
      }
      assert out == FactAt(old(facts), key);
      var rest;
      found, rest := SpliceFirstMatch(out.responses, text, verb);
      out := out.(responses := rest);
      facts := facts[key := out];
    }

    /** The add value transaction: a missing key makes Get fail, and the
        transaction returns that error before writing anything. */
    method UpdateAddValue(key: string, val: Value) returns (ok: bool)
      modifies this
      ensures ok <==> key in old(vars)
      ensures ok ==> vars == AppendValue(old(vars), key, val).value
      ensures !ok ==> vars == old(vars)
      ensures facts == old(facts)
    {
      if key !in vars {
        return false;
      }
      var out := vars[key];
      out := out.(values := out.values + [val]);
      vars := vars[key := out];
      ok := true;
    }

    /** The create var transaction: Get, set the creator if it is empty, Put. */
    method UpdateCreateVar(key: string, who: string) returns (created: bool)
      modifies this
      ensures created <==> VarAt(old(vars), key).creator == ""
      ensures vars == CreateVariable(old(vars), key, who) && facts == old(facts)
    {
      var out := Variable([], "");
      if key in vars {
        out := vars[key];
      }
      created := false;
      if out.creator == "" {
        created := true;
        out := out.(creator := who);
      }
      vars := vars[key := out];
    }

    /** The remove var transaction: Get into `out`, then Delete the key;
        `out` tells the caller what was there. */
    method UpdateRemoveVar(key: string) returns (out: Variable)
      modifies this
      ensures out == VarAt(old(vars), key)
      ensures vars == RemoveVariable(old(vars), key) && facts == old(facts)
    {
      out := Variable([], "");
      if key in vars {
        out := vars[key];
      }
      vars := vars - {key};
    }

    /** The mention callback for a message whose text is data, from who, with
        the OP flag op; rng supplies the random draws of render. The new
        collections and the reply are those of the transition Step. */
    method MentionCallback(data: string, who: string, op: bool, rng: nat -> nat) returns (reply: Reply)
      modifies this
      ensures Outcome(State(), reply) == Step(old(State()), Message(data, who, op), rng)
    {
      var cmd := Classify(data, op);
      reply := Dispatch(cmd, who, rng);
    }

    /** The forget-is branch: the transaction, then a reply saying whether a
        response was removed. */
    method ForgetBranch(key: string, verb: string, text: string, who: string) returns (reply: Reply)
      requires IsVerbToken(verb) && !EqualsFold(verb, "is also")
      modifies this
      ensures Outcome(State(), reply) == Execute(old(State()), ForgetIs(key, verb, text), who, NoDraws)
    {
      var k := Lower(key);
      var v := NormalizeVerb(verb);
      var found := UpdateForget(k, text, v);
      if found {
        reply := Say("Ok " + who + ", forgot " + key + " " + v + " " + text);
      } else {
        reply := Say("Ok " + who + ", couldn't find " + key + " " + v + " " + text);
      }
    }

    /** The add value branch: a failed transaction is an error reply. */
    method AddValueBranch(name: string, text: string, who: string) returns (reply: Reply)
      modifies this
      ensures Outcome(State(), reply) == Execute(old(State()), AddValue(name, text), who, NoDraws)
    {
      var k := Lower(name);
      var val := Value(text, who);
      var ok := UpdateAddValue(k, val);
      if !ok {
        return Failure;
      }
      reply := Say("Ok " + who + ", added " + val.text + " to variable " + k);
    }

    /** The create var branch. */
    method CreateVarBranch(name: string, who: string) returns (reply: Reply)
      modifies this
      ensures Outcome(State(), reply) == Execute(old(State()), CreateVar(name), who, NoDraws)
    {
      var k := Lower(name);
      var created := UpdateCreateVar(k, who);
      if created {
        reply := Say("Ok " + who + ", created variable " + k);
      } else {
        reply := Say("Ok " + who + ", variable " + k + " already created");
      }
    }

    /** The remove var branch. */
    method RemoveVarBranch(name: string, who: string) returns (reply: Reply)
      modifies this
      ensures Outcome(State(), reply) == Execute(old(State()), RemoveVar(name), who, NoDraws)
    {
      var k := Lower(name);
      var out := UpdateRemoveVar(k);
      if out.creator != "" {
        reply := Say("Ok " + who + ", removed variable " + k);
      } else {
        reply := Say("Ok " + who + ", variable " + k + " doesn't exist");
      }
    }

    /** The body of the branch the classifier selected. */
    method Dispatch(cmd: Command, who: string, rng: nat -> nat) returns (reply: Reply)
      requires WellFormed(cmd)
      modifies this
      ensures Outcome(State(), reply) == Execute(old(State()), cmd, who, rng)
    {
      match cmd {
        case Literal(_, key) =>
          var k := Lower(key);
          var out := Fact([]);
          if k in facts {
            out := facts[k];
          }
          reply := MentionFact(out);
        case ForgetIs(key, verb, text) =>
          reply := ForgetBranch(key, verb, text, who);
        case ListVar(name) =>
          var k := Lower(name);
          var out := Variable([], "");
          if k in vars {
            out := vars[k];
          }
          var listed := FormatValues(out.values);
          reply := Say("Ok " + who + ", " + k + " is " + listed);
        case AddValue(name, text) =>
          reply := AddValueBranch(name, text, who);
        case CreateVar(name) =>
          reply := CreateVarBranch(name, who);
        case RemoveVar(name) =>
          reply := RemoveVarBranch(name, who);
        case Statement(key, verb, text) =>
          var k := Lower(key);
          var resp := FactResponse(text, who, NormalizeVerb(verb));
          UpdateStatement(k, resp);
          reply := Say("Ok " + who + ", " + key + " " + resp.verb + " " + resp.text);
        case Render(text) =>
          reply := Mention(Expand(text, vars, rng, 0));
        case Undo | Merge | Alias | Lookup | Forget | WhatWasThat | ListVars | RemoveValue | FullInventory | Inventory | Fallback =>
          reply := Silent;
      }
    }
  }
}

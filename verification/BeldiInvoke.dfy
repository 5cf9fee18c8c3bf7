/**
 How Beldi's executors of one instance agree on the instance id of a callee: the first conditional put into the log
 under (InstanceId, StepNumber) wins; an asynchronous callee is started by whoever first put its intent.
 */
module BeldiInvoke {
  import opened Wrappers
  import opened Daal

  /** A row of the log table; a read leaves one without Callee. */
  datatype Entry = Entry(callee: Option<string>, ret: Option<string>)

  type LogTable = map<Cid, Entry>

  /** Entries keep their callee, and keep having a result. */
  ghost predicate LogKept(log: LogTable, log': LogTable) {
    forall c :: c in log ==> c in log' && log'[c].callee == log[c].callee && (log[c].ret.Some? ==> log'[c].ret.Some?)
  }

  /** RET is written only after the callee's intent was put. */
  ghost predicate ResultsHaveIntents(log: LogTable, intents: set<string>) {
    forall c :: c in log && log[c].callee.Some? && log[c].ret.Some? ==> log[c].callee.value in intents
  }

  ghost predicate NoneTwice(started: seq<string>) {
    forall x, y :: 0 <= x < y < |started| ==> started[x] != started[y]
  }

  /**
   One executor; `log`, `intents` and `started` are shared, the last being the history of asynchronous starts.
   `begun` are the intents that this executor put, `claimed` those of them whose callee it has not started yet.
   */
  class Invoker {
    const instance: string
    var log: LogTable
    var intents: set<string>
    var started: seq<string>
    var stepNumber: nat
    ghost var claimed: set<string>
    ghost var begun: set<string>

    constructor (instance: string, log: LogTable, intents: set<string>, started: seq<string>)
      requires NoneTwice(started) && (forall id :: id in started ==> id in intents) && ResultsHaveIntents(log, intents)
      ensures Valid() && claimed == {} && begun == {} && stepNumber == 0
      ensures this.instance == instance && this.log == log && this.intents == intents && this.started == started
    {
      this.instance, this.log, this.intents, this.started, stepNumber := instance, log, intents, started, 0;
      claimed, begun := {}, {};
    }

    /** A callee is started by the executor that put its intent, so one that this executor claimed waits for it. */
    ghost predicate Valid()
      reads this
    {
      && NoneTwice(started) && (forall id :: id in started ==> id in intents)
      && ResultsHaveIntents(log, intents)
      && claimed <= intents && forall id :: id in claimed ==> id !in started
    }

    function Current(): Cid
      reads this
    {
      Cid(instance, stepNumber)
    }

    /** The current step has a result already. */
    predicate Logged()
      reads this
    {
      Current() in log && log[Current()].ret.Some?
    }

    /** What other executors may do meanwhile. */
    method Interfere()
      requires Valid()
      modifies this`log, this`intents, this`started
      ensures Valid() && LogKept(old(log), log) && old(intents) <= intents && old(started) <= started
    {
    }

    /** A fresh uuid; what follows holds for any string. */
    method NewId() returns (id: string)
    {
      id := "";
    }

    /** LibPut of a Callee: it takes effect if the key has no entry. */
    method PutCallee(id: string) returns (ok: bool)
      requires Valid()
      modifies this`log, this`intents, this`started
      ensures Valid() && LogKept(old(log), log) && Current() in log
      ensures ok ==> Current() !in old(log) && log[Current()] == Entry(Some(id), None)
    {
      Interfere();
      ok := Current() !in log;
      if ok { log := log[Current() := Entry(Some(id), None)]; }
    }

    /** The callee's id as all executors know it, and its logged result if there is one. */
    method Agree() returns (r: Result<string>, ret: Option<string>)
      requires Valid()
      modifies this`log, this`intents, this`started
      ensures Valid() && LogKept(old(log), log) && Current() in log
      ensures r.Ok? <==> log[Current()].callee.Some?
      ensures r.Ok? ==> log[Current()].callee == Some(r.value)
      ensures ret == log[Current()].ret
    {
      var id := NewId();
      var ok := PutCallee(id);
      if ok { return Ok(id), None; }
      Interfere();
      var item := log[Current()];
      r := if item.callee.Some? then Ok(item.callee.value) else Panic("error");
      ret := item.ret;
    }

    /**
     All executors of the step invoke the same instance, or return the result that it logged: the latter exactly when
     the step has one, as it has if it had one at the call.
     */
    method SyncInvoke(input: string) returns (id: Result<string>, invoked: bool, ret: Option<string>)
      requires Valid()
      modifies this`log, this`intents, this`started, this`stepNumber
      ensures Valid() && LogKept(old(log), log) && old(Current()) in log
      ensures id.Ok? <==> log[old(Current())].callee.Some?
      ensures id.Ok? ==> log[old(Current())].callee == Some(id.value) && stepNumber == old(stepNumber) + 1
      ensures id.Ok? ==> ret == log[old(Current())].ret && (invoked <==> ret.None?)
      ensures id.Ok? && old(Logged()) ==> ret.Some? && !invoked
    {
      id, ret := Agree();
      if id.Panic? { return id, false, None; }
      invoked := ret.None?;
      stepNumber := stepNumber + 1;
    }

    /** The intent of the callee; who puts it first, and nobody else, starts the callee. */
    method PutIntent(id: string) returns (ok: bool)
      requires Valid() && id !in claimed
      modifies this`log, this`intents, this`started, this`claimed, this`begun
      ensures Valid() && LogKept(old(log), log) && id in intents && old(started) <= started
      ensures claimed == if ok then old(claimed) + {id} else old(claimed)
      ensures begun == if ok then old(begun) + {id} else old(begun)
    {
      Interfere();
      ok := id !in intents;
      if ok {
        intents, claimed, begun := intents + {id}, claimed + {id}, begun + {id};
      }
    }

    method Start(id: string)
      requires Valid() && id in claimed
      modifies this`log, this`intents, this`started, this`claimed
      ensures Valid() && LogKept(old(log), log) && old(intents) <= intents
      ensures claimed == old(claimed) - {id} && id in started
    {
      Interfere();
      started, claimed := started + [id], claimed - {id};
    }

    /**
     All executors of the step agree on the instance, its intent is there when one of them returns, the one that put it
     has started the callee when it returns, and however many of them there are it is started at most once.
     */
    method AsyncInvoke() returns (id: Result<string>)
      requires Valid() && claimed == {}
      modifies this`log, this`intents, this`started, this`claimed, this`begun, this`stepNumber
      ensures Valid() && claimed == {} && LogKept(old(log), log) && old(Current()) in log
      ensures id.Ok? <==> log[old(Current())].callee.Some?
      ensures id.Ok? ==> log[old(Current())].callee == Some(id.value) && stepNumber == old(stepNumber) + 1
      ensures id.Ok? ==> id.value in intents
      ensures id.Ok? && old(Logged()) ==> begun == old(begun)
      ensures begun != old(begun) ==> id.Ok? && begun == old(begun) + {id.value} && log[old(Current())].ret.Some?
      ensures NoneTwice(started) && forall x :: x in begun && x !in old(begun) ==> x in started
    {
      var ret: Option<string>;
      id, ret := Agree();
      if id.Panic? { return; }
      if ret.None? {
        var ok := PutIntent(id.value);
        if ok {
          SetRet();
          Start(id.value);
        }
      }
      stepNumber := stepNumber + 1;
    }

    /** RET marks the step as done for later executions. */
    method SetRet()
      requires Valid() && Current() in log && (log[Current()].callee.Some? ==> log[Current()].callee.value in intents)
      modifies this`log, this`intents, this`started
      ensures Valid() && LogKept(old(log), log) && old(intents) <= intents && old(started) <= started
      ensures log[Current()].ret.Some?
    {
      Interfere();
      log := log[Current() := log[Current()].(ret := Some("1"))];
    }
  }
}

/**
 * Fujian, the Python backend: it runs code sent over HTTP or a WebSocket in
 * one shared namespace (`exec_globals`), captures what the code writes to
 * stdout and stderr, and answers with those texts, the value left in the
 * global `fujian_return` and, when the code raised, a traceback.
 *
 * Running Python is not part of this model. A piece of code is represented
 * by its effect on the namespace: the globals it leaves, what it writes to
 * each stream and the traceback of the exception it raises, if any. Each
 * global is represented by the text `str()` gives for it.
 */
module Fujian {
  import opened Protocol

  /** `sys.stdout` and `sys.stderr` while a request runs: a buffer that only grows. */
  class StdoutHandler {
    var stuff: string

    constructor ()
      ensures stuff == ""
    {
      stuff := "";
    }

    method Write(writeThis: string)
      modifies this
      ensures stuff == old(stuff) + writeThis
    {
      stuff := stuff + writeThis;
    }

    /** Everything written since the handler was made, in order. */
    method Get() returns (r: string)
      ensures r == stuff
    {
      r := stuff;
    }
  }

  type Globals = map<string, string>

  /**
   * What `exec(code, exec_globals)` does. `raised` is the traceback of an
   * exception of a subclass of `Exception`, which `execute_some_python`
   * catches; `escaped` says the code raised one of the other
   * `BaseException`s (`SystemExit`, `KeyboardInterrupt`, `GeneratorExit`),
   * which passes through it.
   */
  datatype Outcome = Outcome(globals: Globals, stdout: string, stderr: string, raised: Option<string>, escaped: bool)

  /** A piece of code, as its effect on the namespace it runs in. */
  type Code = Globals -> Outcome

  const ReturnName := "fujian_return"

  /** The dictionary `execute_some_python` returns: `traceback` is present only when the code raised. */
  datatype Report = Report(traceback: Option<string>, stdout: string, stderr: string, ret: string)

  /**
   * `execute_some_python`: the namespace after the call and the result
   * dictionary, or `None` when an exception leaves it: one the code raised
   * outside `Exception`, or the `KeyError` of reading `fujian_return` back
   * after the code deleted it.
   */
  function Executed(globals: Globals, code: Code): (r: Option<(Globals, Report)>)
    ensures var o := code(globals[ReturnName := ""]);
            && (r.Some? <==> !o.escaped && ReturnName in o.globals)
            && (r.Some? ==> ReturnName !in r.value.0 && r.value.0 == o.globals - {ReturnName})
            && (r.Some? ==> r.value.1 == Report(o.raised, o.stdout, o.stderr, o.globals[ReturnName]))
  {
    var o := code(globals[ReturnName := ""]);
    if !o.escaped && ReturnName in o.globals then
      Some((o.globals - {ReturnName}, Report(o.raised, o.stdout, o.stderr, o.globals[ReturnName])))
    else None
  }

  /**
   * `fujian_return` is set to the empty string before the code runs: what a
   * previous request left in it never reaches the next result.
   */
  lemma ReturnIsolated(g1: Globals, g2: Globals, code: Code)
    requires g1 - {ReturnName} == g2 - {ReturnName}
    ensures Executed(g1, code) == Executed(g2, code)
  {
    var a := g1[ReturnName := ""];
    var b := g2[ReturnName := ""];
    forall k ensures (k in a <==> k in b) && (k in a ==> a[k] == b[k]) {
      if k != ReturnName {
        assert k in g1 - {ReturnName} <==> k in g2 - {ReturnName};
        if k in g1 {
          assert (g1 - {ReturnName})[k] == (g2 - {ReturnName})[k];
        }
      }
    }
    assert a == b;
  }

  /** Code that never assigns `fujian_return`, and does not escape, returns the empty string. */
  lemma UntouchedReturnIsEmpty(globals: Globals, code: Code)
    requires var g := globals[ReturnName := ""];
             !code(g).escaped && ReturnName in code(g).globals && code(g).globals[ReturnName] == g[ReturnName]
    ensures Executed(globals, code).Some? && Executed(globals, code).value.1.ret == ""
  {
  }

  /** The HTTP status `post` sets: 400 exactly when there is a traceback, 200 otherwise. */
  function Status(post: Report): (code: int)
    ensures code == 400 <==> post.traceback.Some?
    ensures code == 200 <==> post.traceback.None?
  {
    if post.traceback.Some? then 400 else 200
  }

  /** `on_message` writes the result back when the code raised or produced any output. */
  predicate Answers(post: Report)
    ensures post.traceback.Some? ==> Answers(post)
    ensures !Answers(post) ==> post == Report(None, "", "", "")
  {
    post.traceback.Some? || |post.stdout| > 0 || |post.stderr| > 0 || |post.ret| > 0
  }

  /**
   * The WebSocket stays silent exactly on the results the HTTP handler would
   * send as a 200 with three empty strings.
   */
  lemma SilentIffEmptySuccess(post: Report)
    ensures !Answers(post) <==> Status(post) == 200 && post == Report(None, "", "", "")
  {
  }

  /** Origins the WebSocket accepts. */
  const PermittedOrigins: seq<string> := ["http://localhost:", "https://localhost:", "file://"]

  predicate StartsWith(s: string, prefix: string)
  {
    |prefix| <= |s| && s[..|prefix|] == prefix
  }

  ghost predicate Permitted(origin: string)
  {
    exists i | 0 <= i < |PermittedOrigins| :: StartsWith(origin, PermittedOrigins[i])
  }

  /** `check_origin`. */
  method CheckOrigin(origin: string) returns (ok: bool)
    ensures ok <==> Permitted(origin)
  {
    for i := 0 to |PermittedOrigins|
      invariant forall j | 0 <= j < i :: !StartsWith(origin, PermittedOrigins[j])
    {
      if StartsWith(origin, PermittedOrigins[i]) {
        return true;
      }
    }
    return false;
  }

  /**
   * The port separator is part of each prefix: a host whose name only
   * begins with "localhost" is refused, whatever follows.
   */
  lemma LookalikeHostRefused(origin: string, rest: string)
    requires origin == "http://localhost." + rest || origin == "https://localhost." + rest
    ensures !Permitted(origin)
  {
    var plain := origin == "http://localhost." + rest;
    forall i | 0 <= i < |PermittedOrigins| ensures !StartsWith(origin, PermittedOrigins[i]) {
      var p := PermittedOrigins[i];
      // a position where the origin and the prefix differ
      var j := if i == 2 then 0 else if (i == 0) == plain then 16 + i else 4;
      assert j < |p| && j < |origin| && origin[j] != p[j];
    }
  }

  /** Every origin that starts with one of the three prefixes is accepted. */
  lemma LocalOriginsPermitted(port: string)
    ensures Permitted("http://localhost:" + port)
    ensures Permitted("https://localhost:" + port)
    ensures Permitted("file://" + port)
  {
    assert StartsWith("http://localhost:" + port, PermittedOrigins[0]);
    assert StartsWith("https://localhost:" + port, PermittedOrigins[1]);
    assert StartsWith("file://" + port, PermittedOrigins[2]);
  }

  /**
   * What `exec` makes of `str(body)` when `body` is a `bytes` object, as
   * Tornado gives a request body under Python 3: the text is the body's repr,
   * `b'...'`, a bytes literal whose evaluation writes nothing, raises nothing
   * and leaves the namespace alone.
   */
  function BytesRepr(globals: Globals): (o: Outcome)
    ensures o.globals == globals && o.stdout == "" && o.stderr == "" && o.raised.None? && !o.escaped
  {
    Outcome(globals, "", "", None, false)
  }

  /**
   * `post` as written, under Python 3: whatever the request body, the code
   * that runs is its bytes literal, so every request succeeds with an empty
   * result and only `fujian_return` leaves the namespace.
   */
  lemma BodyNeverRuns(globals: Globals)
    ensures Executed(globals, BytesRepr) == Some((globals - {ReturnName}, Report(None, "", "", "")))
  {
    var g := globals[ReturnName := ""];
    assert g - {ReturnName} == globals - {ReturnName};
  }

  /** The Python process: `exec_globals` and the two stream handlers of the current request. */
  class Interpreter {
    var execGlobals: Globals
    var stdout: StdoutHandler
    var stderr: StdoutHandler

    constructor ()
      ensures execGlobals == map["__name__" := "__main__"]
    {
      execGlobals := map["__name__" := "__main__"];
      stdout := new StdoutHandler();
      stderr := new StdoutHandler();
    }

    /** `make_new_stdout`: fresh, empty handlers for this request. */
    method MakeNewStdout()
      modifies this
      ensures fresh(stdout) && fresh(stderr) && stdout != stderr
      ensures stdout.stuff == "" && stderr.stuff == ""
      ensures execGlobals == old(execGlobals)
    {
      stdout := new StdoutHandler();
      stderr := new StdoutHandler();
    }

    /** `execute_some_python`; `None` when an exception leaves it. */
    method ExecuteSomePython(code: Code) returns (post: Option<Report>)
      modifies this
      ensures post.Some? <==> Executed(old(execGlobals), code).Some?
      ensures post.Some? ==> Executed(old(execGlobals), code).value == (execGlobals, post.value)
      ensures post.None? ==> execGlobals == code(old(execGlobals)[ReturnName := ""]).globals
    {
      MakeNewStdout();
      execGlobals := execGlobals[ReturnName := ""];
      var outcome := code(execGlobals);
      stdout.Write(outcome.stdout);
      stderr.Write(outcome.stderr);
      execGlobals := outcome.globals;
      var out := stdout.Get();
      var err := stderr.Get();
      assert out == outcome.stdout && err == outcome.stderr;
      if outcome.escaped || ReturnName !in execGlobals {
        return None;
      }
      var ret := execGlobals[ReturnName];
      execGlobals := execGlobals - {ReturnName};
      post := Some(Report(outcome.raised, out, err, ret));
    }

    /**
     * `FujianHandler.post` as written: `str()` of the request body, which
     * under Python 3 is `bytes`, is the body's repr, so the submitted code
     * never runs.
     */
    method PostAsWritten(body: Code) returns (response: Option<(int, Report)>)
      modifies this
      ensures response == Some((200, Report(None, "", "", "")))
      ensures execGlobals == old(execGlobals) - {ReturnName}
    {
      BodyNeverRuns(execGlobals);
      response := Post(BytesRepr);
    }

    /**
     * `FujianHandler.post` as intended, with the request body decoded to the
     * code it holds: the status and the body; `None` when the request fails
     * with an exception.
     */
    method Post(body: Code) returns (response: Option<(int, Report)>)
      modifies this
      ensures response.Some? <==> Executed(old(execGlobals), body).Some?
      ensures response.Some? ==> response.value.1 == Executed(old(execGlobals), body).value.1
      ensures response.Some? ==> response.value.0 == Status(response.value.1)
      ensures response.Some? ==> execGlobals == Executed(old(execGlobals), body).value.0
      ensures response.None? ==> execGlobals == body(old(execGlobals)[ReturnName := ""]).globals
    {
      var post := ExecuteSomePython(body);
      if post.None? {
        return None;
      }
      var status := 200;
      if post.value.traceback.Some? {
        status := 400;
      }
      response := Some((status, post.value));
    }

    /** `FujianWebSocketHandler.on_message`: the message written back, if any. */
    method OnMessage(message: Code) returns (sent: Option<Report>)
      modifies this
      ensures sent.Some? <==> Executed(old(execGlobals), message).Some? && Answers(Executed(old(execGlobals), message).value.1)
      ensures sent.Some? ==> sent.value == Executed(old(execGlobals), message).value.1
      ensures Executed(old(execGlobals), message).Some? ==> execGlobals == Executed(old(execGlobals), message).value.0
      ensures Executed(old(execGlobals), message).None? ==> execGlobals == message(old(execGlobals)[ReturnName := ""]).globals
    {
      var post := ExecuteSomePython(message);
      if post.None? {
        return None;
      }
      if post.value.traceback.Some? {
        sent := Some(post.value);
      } else if |post.value.stdout| > 0 || |post.value.stderr| > 0 || |post.value.ret| > 0 {
        sent := Some(post.value);
      } else {
        sent := None;
      }
    }
  }
}

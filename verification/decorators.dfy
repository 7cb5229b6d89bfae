/** The `view_output_plots` task decorator: the decorated call passes through unchanged, and
    afterwards every distinct PDF or PNG output is opened once with the task's view command.
    Opening a file is left to the caller; the model computes the command and the paths. */
module Decorators {
  import opened Wrappers
  import opened Seqs

  /** law's marker for an explicitly unset string parameter. */
  const NO_STR: string := "NO_STR"

  /** An output target: a file target with its absolute path (possibly absent), or a
      collection of further targets. */
  datatype Target = FileTarget(abspath: Option<string>) | Collection(targets: seq<Target>)

  /** `"{}" in s`. */
  predicate HasPlaceholder(s: string)
  {
    exists i :: 0 <= i < |s| - 1 && s[i] == '{' && s[i + 1] == '}'
  }

  predicate EndsWith(s: string, suffix: string)
  {
    |suffix| <= |s| && s[|s| - |suffix|..] == suffix
  }

  /** A target is viewed when it has a non-empty path ending in `.pdf` or `.png`. */
  predicate Viewable(path: Option<string>)
  {
    path.Some? && path.value != "" && (EndsWith(path.value, ".pdf") || EndsWith(path.value, ".png"))
  }

  /** The view command with its placeholder: " {}" is appended when it has none. */
  function ViewCommand(cmd: string): (r: string)
    ensures HasPlaceholder(r)
    ensures HasPlaceholder(cmd) ==> r == cmd
    ensures !HasPlaceholder(cmd) ==> r == cmd + " {}"
  {
    if HasPlaceholder(cmd) then cmd
    else
      assert (cmd + " {}")[|cmd| + 1] == '{' && (cmd + " {}")[|cmd| + 2] == '}';
      cmd + " {}"
  }

  /** Preparing the command a second time changes nothing. */
  lemma ViewCommandIdempotent(cmd: string)
    ensures ViewCommand(ViewCommand(cmd)) == ViewCommand(cmd)
  {
  }

  // ---------------------------------------------------------------------------------------
  // the paths to view

  function NodesOf(t: Target): nat
  {
    match t
    case FileTarget(_) => 1
    case Collection(ts) => 1 + Nodes(ts)
  }

  /** The number of targets in a queue, counting nested ones. */
  function Nodes(ts: seq<Target>): nat
  {
    if ts == [] then 0 else NodesOf(ts[0]) + Nodes(ts[1..])
  }

  lemma {:induction false} NodesAppend(a: seq<Target>, b: seq<Target>)
    ensures Nodes(a + b) == Nodes(a) + Nodes(b)
  {
    if a != [] {
      assert (a + b)[1..] == a[1..] + b;
      NodesAppend(a[1..], b);
    } else {
      assert a + b == b;
    }
  }

  function EligibleOf(t: Target): set<string>
  {
    match t
    case FileTarget(p) => if Viewable(p) then {p.value} else {}
    case Collection(ts) => Eligible(ts)
  }

  /** The viewable paths in a list of targets, however deeply collected. */
  function Eligible(ts: seq<Target>): set<string>
  {
    if ts == [] then {} else EligibleOf(ts[0]) + Eligible(ts[1..])
  }

  lemma {:induction false} EligibleAppend(a: seq<Target>, b: seq<Target>)
    ensures Eligible(a + b) == Eligible(a) + Eligible(b)
  {
    if a != [] {
      assert (a + b)[1..] == a[1..] + b;
      EligibleAppend(a[1..], b);
    } else {
      assert a + b == b;
    }
  }

  /** The loop of the after-call step: targets are taken from the front of the queue; a
      collection appends its targets to the end, and a viewable path not seen before is
      viewed and remembered. Every viewable path of the queue not seen yet is viewed, once. */
  function ViewQueue(queue: seq<Target>, seen: set<string>): (r: seq<string>)
    ensures NoDups(r)
    ensures forall p :: p in r <==> p in Eligible(queue) && p !in seen
    decreases Nodes(queue)
  {
    if queue == [] then []
    else
      assert Nodes(queue) == NodesOf(queue[0]) + Nodes(queue[1..]);
      match queue[0]
      case Collection(ts) =>
        NodesAppend(queue[1..], ts);
        EligibleAppend(queue[1..], ts);
        ViewQueue(queue[1..] + ts, seen)
      case FileTarget(p) =>
        if !Viewable(p) || p.value in seen then ViewQueue(queue[1..], seen)
        else [p.value] + ViewQueue(queue[1..], seen + {p.value})
  }

  /** What the after-call step does: no view command (absent, empty or `NO_STR`) views
      nothing; otherwise the prepared command and the paths it opens, in order. */
  function AfterCall(viewCmd: Option<string>, outputs: seq<Target>): (r: Option<(string, seq<string>)>)
    ensures r.None? <==> viewCmd.None? || viewCmd.value == "" || viewCmd.value == NO_STR
    ensures r.Some? ==> r.value.0 == ViewCommand(viewCmd.value) && HasPlaceholder(r.value.0)
    ensures r.Some? ==> NoDups(r.value.1)
    ensures r.Some? ==> forall p :: p in r.value.1 <==> p in Eligible(outputs)
  {
    if viewCmd.None? || viewCmd.value == "" || viewCmd.value == NO_STR then None
    else Some((ViewCommand(viewCmd.value), ViewQueue(outputs, {})))
  }

  /** Every viewed path is a non-empty `.pdf` or `.png` path of some output. */
  lemma {:induction false} EligibleAreViewable(ts: seq<Target>, p: string)
    requires p in Eligible(ts)
    ensures p != "" && (EndsWith(p, ".pdf") || EndsWith(p, ".png"))
    decreases ts
  {
    if ts != [] {
      if p in EligibleOf(ts[0]) {
        match ts[0]
        case FileTarget(_) =>
        case Collection(inner) =>
          EligibleAreViewable(inner, p);
      } else {
        EligibleAreViewable(ts[1..], p);
      }
    }
  }

  /** The decorated task method: the call step returns what the method returns, and the
      after-call step views the plots. */
  function Decorated<A, R>(fn: A -> R, task: A, viewCmd: Option<string>, outputs: seq<Target>)
    : (r: (R, Option<(string, seq<string>)>))
    ensures r.0 == fn(task)
    ensures r.1 == AfterCall(viewCmd, outputs)
  {
    (fn(task), AfterCall(viewCmd, outputs))
  }

  /** A PDF listed twice, once inside a collection, is viewed once; a text file is not. */
  lemma ViewExample()
    ensures AfterCall(Some("evince"), [FileTarget(Some("a.pdf")), Collection([FileTarget(Some("a.pdf")),
      FileTarget(Some("b.txt"))])]) == Some(("evince {}", ["a.pdf"]))
  {
    var a := FileTarget(Some("a.pdf"));
    var b := FileTarget(Some("b.txt"));
    assert !HasPlaceholder("evince");
    assert Viewable(Some("a.pdf")) by {
      assert EndsWith("a.pdf", ".pdf");
    }
    assert !Viewable(Some("b.txt")) by {
      assert "b.txt"[1..] != ".pdf" && "b.txt"[1..] != ".png";
    }
    assert [a, Collection([a, b])][1..] == [Collection([a, b])];
    assert ViewQueue([Collection([a, b])], {"a.pdf"}) == ViewQueue([] + [a, b], {"a.pdf"});
    assert [] + [a, b] == [a, b];
    assert [a, b][1..] == [b];
    assert ViewQueue([a, b], {"a.pdf"}) == ViewQueue([b], {"a.pdf"});
    assert ViewQueue([b], {"a.pdf"}) == ViewQueue([b][1..], {"a.pdf"});
    assert [b][1..] == [];
    assert ViewQueue([b], {"a.pdf"}) == [];
    var none: set<string> := {};
    assert none + {"a.pdf"} == {"a.pdf"};
    assert ViewQueue([a, Collection([a, b])], none) == ["a.pdf"] + ViewQueue([Collection([a, b])], {"a.pdf"});
    assert "evince" + " {}" == "evince {}";
    assert ViewCommand("evince") == "evince {}";
    assert ViewQueue([a, Collection([a, b])], none) == ["a.pdf"];
    assert AfterCall(Some("evince"), [a, Collection([a, b])]) == Some((ViewCommand("evince"), ViewQueue([a, Collection([a, b])], none)));
  }
}

/**
 * A whole stream through one filter: `_transform` applied to the chunks in
 * arrival order as successive direct calls, and what those calls forward.
 */
module Stream {
  import opened Wrappers
  import opened Filter

  /** The filter's value after a run and the action of every call. */
  datatype Trace = Trace(final: Snapshot, actions: seq<Action>)

  /** Feed `chunks` to the filter `s`, one `_transform` call each. */
  function Run(policy: Policy, classify: Classifier, s: Snapshot, chunks: seq<seq<bv8>>): (r: Trace)
    requires policy.Supported()
    ensures |r.actions| == |chunks|
    ensures Inv(s) ==> Inv(r.final)
    ensures s.count <= r.final.count
    decreases |chunks|
  {
    if chunks == [] then Trace(s, [])
    else
      var t := Step(policy, classify, s, chunks[0]);
      var rest := Run(policy, classify, t.next, chunks[1..]);
      Trace(rest.final, [t.action] + rest.actions)
  }

  /** The bytes pushed downstream by a sequence of actions. */
  function Forwarded(actions: seq<Action>): seq<bv8> {
    if actions == [] then []
    else (if actions[0].Forward? then actions[0].data else []) + Forwarded(actions[1..])
  }

  /** The chunks joined into one byte sequence. */
  function Concat(chunks: seq<seq<bv8>>): seq<bv8> {
    if chunks == [] then [] else chunks[0] + Concat(chunks[1..])
  }

  function TotalLength(chunks: seq<seq<bv8>>): nat {
    if chunks == [] then 0 else |chunks[0]| + TotalLength(chunks[1..])
  }

  /**
   * Call k is the classifying call of a run: every earlier call withheld its
   * chunk and call k passed its own chunk on.
   */
  ghost predicate ClassifiedAt(actions: seq<Action>, chunks: seq<seq<bv8>>, k: int) {
    && 0 <= k < |chunks| && k < |actions|
    && (forall j :: 0 <= j < k ==> actions[j] == Withhold)
    && actions[k] == Forward(chunks[k])
  }

  /**
   * No undecided call of the run finds a type: each call that classifies
   * sees `None` for the buffer it has just filled.
   */
  ghost predicate NoCallClassifies(policy: Policy, classify: Classifier, s: Snapshot, chunks: seq<seq<bv8>>)
    requires policy.Supported()
    decreases |chunks|
  {
    chunks == [] || s.state != Unclassified ||
      (classify(CopyInto(s.buf, chunks[0], s.count)) == None
       && NoCallClassifies(policy, classify, Step(policy, classify, s, chunks[0]).next, chunks[1..]))
  }

  /** Running two batches of chunks is running their concatenation. */
  lemma {:induction false} RunAppend(policy: Policy, classify: Classifier, s: Snapshot, a: seq<seq<bv8>>, b: seq<seq<bv8>>)
    requires policy.Supported()
    ensures var ra := Run(policy, classify, s, a);
      var rb := Run(policy, classify, ra.final, b);
      Run(policy, classify, s, a + b) == Trace(rb.final, ra.actions + rb.actions)
    decreases |a|
  {
    if a != [] {
      var t := Step(policy, classify, s, a[0]);
      assert (a + b)[0] == a[0];
      assert (a + b)[1..] == a[1..] + b;
      RunAppend(policy, classify, t.next, a[1..], b);
    } else {
      assert a + b == b;
    }
  }

  /**
   * Allowed and Blocked are absorbing over any number of further chunks:
   * once allowed every chunk is passed on unchanged, once blocked every chunk
   * fails and nothing is passed on.
   */
  lemma {:induction false} DecidedRun(policy: Policy, classify: Classifier, s: Snapshot, chunks: seq<seq<bv8>>)
    requires policy.Supported() && s.state != Unclassified
    ensures var r := Run(policy, classify, s, chunks);
      && r.final == s
      && (s.state == Allowed ==>
            (forall i :: 0 <= i < |chunks| ==> r.actions[i] == Forward(chunks[i]))
            && Forwarded(r.actions) == Concat(chunks))
      && (s.state == Blocked ==>
            (forall i :: 0 <= i < |chunks| ==> r.actions[i] == Error)
            && Forwarded(r.actions) == [])
    decreases |chunks|
  {
    if chunks != [] {
      DecidedRun(policy, classify, s, chunks[1..]);
      var r := Run(policy, classify, s, chunks);
      assert r.actions[1..] == Run(policy, classify, s, chunks[1..]).actions;
    }
  }

  /**
   * The gate decides at most once: whatever follows a prefix of the stream
   * that reached a decision, the filter ends in exactly that state.
   */
  lemma DecisionIsFinal(policy: Policy, classify: Classifier, s: Snapshot, a: seq<seq<bv8>>, b: seq<seq<bv8>>)
    requires policy.Supported()
    requires Run(policy, classify, s, a).final.state != Unclassified
    ensures Run(policy, classify, s, a + b).final == Run(policy, classify, s, a).final
  {
    RunAppend(policy, classify, s, a, b);
    DecidedRun(policy, classify, Run(policy, classify, s, a).final, b);
  }

  /** The first call of a run, and the rest of the run after it. */
  lemma RunUnfold(policy: Policy, classify: Classifier, s: Snapshot, chunks: seq<seq<bv8>>)
    requires policy.Supported() && chunks != []
    ensures var t := Step(policy, classify, s, chunks[0]);
      var rest := Run(policy, classify, t.next, chunks[1..]);
      var r := Run(policy, classify, s, chunks);
      && r.final == rest.final
      && r.actions[0] == t.action
      && r.actions[1..] == rest.actions
      && Forwarded(r.actions) == (if t.action.Forward? then t.action.data else []) + Forwarded(rest.actions)
  {
  }

  /** An undecided filter that does not end Allowed passes nothing on. */
  lemma {:induction false} NothingForwardedUnlessAllowed(policy: Policy, classify: Classifier, s: Snapshot, chunks: seq<seq<bv8>>)
    requires policy.Supported() && s.state == Unclassified
    requires Run(policy, classify, s, chunks).final.state != Allowed
    ensures Forwarded(Run(policy, classify, s, chunks).actions) == []
    decreases |chunks|
  {
    if chunks != [] {
      var t := Step(policy, classify, s, chunks[0]);
      RunUnfold(policy, classify, s, chunks);
      if t.next.state == Unclassified {
        NothingForwardedUnlessAllowed(policy, classify, t.next, chunks[1..]);
      } else {
        DecidedRun(policy, classify, t.next, chunks[1..]);
      }
    }
  }

  /**
   * An undecided filter that ends Allowed has a classifying chunk k: every
   * earlier call withheld its chunk, and exactly chunks k, k+1, ... are
   * passed on, so the withheld prefix is never re-emitted.
   */
  lemma {:induction false} AllowedRunOutput(policy: Policy, classify: Classifier, s: Snapshot, chunks: seq<seq<bv8>>)
    requires policy.Supported() && s.state == Unclassified
    requires Run(policy, classify, s, chunks).final.state == Allowed
    ensures var r := Run(policy, classify, s, chunks);
      exists k :: ClassifiedAt(r.actions, chunks, k) && Forwarded(r.actions) == Concat(chunks[k..])
    decreases |chunks|
  {
    var t := Step(policy, classify, s, chunks[0]);
    var rest := Run(policy, classify, t.next, chunks[1..]);
    var r := Run(policy, classify, s, chunks);
    RunUnfold(policy, classify, s, chunks);
    if t.next.state == Unclassified {
      AllowedRunOutput(policy, classify, t.next, chunks[1..]);
      var k' :| ClassifiedAt(rest.actions, chunks[1..], k') && Forwarded(rest.actions) == Concat(chunks[1..][k'..]);
      assert chunks[1..][k'..] == chunks[k' + 1..];
      assert ClassifiedAt(r.actions, chunks, k' + 1);
    } else {
      DecidedRun(policy, classify, t.next, chunks[1..]);
      assert chunks[0..] == chunks;
      assert ClassifiedAt(r.actions, chunks, 0);
    }
  }

  /**
   * The filter always decides within the byte budget, whatever the
   * classifier: a run that ends undecided has counted every byte it was
   * given, and fewer than BYTES_REQUIRED of them.
   */
  lemma {:induction false} DecidesWithinBudget(policy: Policy, classify: Classifier, s: Snapshot, chunks: seq<seq<bv8>>)
    requires policy.Supported() && Inv(s) && s.state == Unclassified
    ensures var r := Run(policy, classify, s, chunks);
      r.final.state == Unclassified ==> r.final.count == s.count + TotalLength(chunks) < BYTES_REQUIRED
    decreases |chunks|
  {
    if chunks != [] {
      var t := Step(policy, classify, s, chunks[0]);
      if t.next.state == Unclassified {
        DecidesWithinBudget(policy, classify, t.next, chunks[1..]);
      } else {
        DecidedRun(policy, classify, t.next, chunks[1..]);
      }
    }
  }

  /**
   * The byte budget for an input the classifier never recognises: when no
   * call of the run finds a type, an undecided filter ends Blocked exactly
   * when the bytes counted reach BYTES_REQUIRED, whatever the chunk sizes,
   * and no call forwards anything.
   */
  lemma {:induction false} BudgetExhaustion(policy: Policy, classify: Classifier, s: Snapshot, chunks: seq<seq<bv8>>)
    requires policy.Supported() && NoCallClassifies(policy, classify, s, chunks)
    requires Inv(s) && s.state == Unclassified
    ensures var r := Run(policy, classify, s, chunks);
      && r.final.state == (if s.count + TotalLength(chunks) >= BYTES_REQUIRED then Blocked else Unclassified)
      && (r.final.state == Unclassified ==> r.final.count == s.count + TotalLength(chunks))
      && Forwarded(r.actions) == []
    decreases |chunks|
  {
    if chunks != [] {
      var t := Step(policy, classify, s, chunks[0]);
      if t.next.state == Unclassified {
        BudgetExhaustion(policy, classify, t.next, chunks[1..]);
      } else {
        DecidedRun(policy, classify, t.next, chunks[1..]);
      }
    }
  }

  /**
   * A fresh filter whose first chunk already classifies: an allowed type
   * passes the whole stream, every byte of it; a refused type fails every
   * call and passes no byte.
   */
  lemma FirstChunkDecides(policy: Policy, classify: Classifier, chunks: seq<seq<bv8>>, t: FileType)
    requires policy.Supported() && chunks != []
    requires classify(CopyInto(Initial().buf, chunks[0], 0)) == Some(t)
    ensures var r := Run(policy, classify, Initial(), chunks);
      && (IsAllowed(policy, t.mime) ==>
            r.final.state == Allowed && Forwarded(r.actions) == Concat(chunks))
      && (!IsAllowed(policy, t.mime) ==>
            r.final.state == Blocked && Forwarded(r.actions) == []
            && forall i :: 0 <= i < |chunks| ==> r.actions[i] == Error)
  {
    var s := Initial();
    var step := Step(policy, classify, s, chunks[0]);
    DecidedRun(policy, classify, step.next, chunks[1..]);
    var r := Run(policy, classify, s, chunks);
    assert r.actions == [step.action] + Run(policy, classify, step.next, chunks[1..]).actions;
  }

  /**
   * Over direct calls, the output depends on how the bytes are chunked. With
   * a classifier that needs the second byte, the calls forward the bytes
   * [1, 2] whole when sent as one chunk, while sent as [1] then [2] the first
   * byte is withheld and never forwarded.
   */
  lemma ChunkingChangesOutput()
    ensures var classify: Classifier := b => if |b| > 1 && b[1] == 2 then Some(FileType("x", "x/y")) else None;
      var policy := Exact("x/y");
      && Forwarded(Run(policy, classify, Initial(), [[1, 2]]).actions) == [1, 2]
      && Forwarded(Run(policy, classify, Initial(), [[1], [2]]).actions) == [2]
  {
  }

  /**
   * The decision depends on the chunking too. A classifier that recognises a
   * buffer starting with 1, 0 sees [1, 2, 0, ...] when [1, 2] is one chunk and
   * stays undecided, but sees [1, 0, ...] after the chunk [1] alone, so under
   * a policy refusing that type the calls for [1] then [2] end Blocked.
   */
  lemma ChunkingChangesDecision()
    ensures var classify: Classifier := b => if |b| > 1 && b[0] == 1 && b[1] == 0 then Some(FileType("x", "x/y")) else None;
      var policy := Exact("a/b");
      && Run(policy, classify, Initial(), [[1, 2]]).final.state == Unclassified
      && Run(policy, classify, Initial(), [[1], [2]]).final.state == Blocked
  {
  }
}

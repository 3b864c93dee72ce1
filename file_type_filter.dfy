/**
 * The type-gated transform of lib/file-type-filter.js: a three-state gate
 * that sniffs the leading bytes of a stream with a classifier, asks a policy
 * whether the detected MIME type is allowed, and from then on either passes
 * every chunk through or fails every chunk.
 */
module Filter {
  import opened Wrappers

  /** Bytes the classifier needs to decide (lib/file-type-filter.js:10). */
  const BYTES_REQUIRED: nat := 4100

  /** The decision register (lib/file-type-filter.js:13-15). */
  datatype State = Unclassified | Allowed | Blocked

  /** What the classifier reports: an extension and a MIME type. */
  datatype FileType = FileType(ext: string, mime: string)

  /**
   * The file-type library, taken as an arbitrary deterministic function of
   * the whole classification buffer.
   */
  type Classifier = seq<bv8> -> Option<FileType>

  /**
   * The `allowedTypes` argument. `Unsupported` stands for every JavaScript
   * value that is neither a string, an array nor a function (a number, a
   * plain object, null, undefined); the constructor refuses it.
   */
  datatype Policy =
    | Exact(mime: string)
    | OneOf(mimes: seq<string>)
    | Pred(allows: string -> bool)
    | Unsupported
  {
    /** The shape assertion of the constructor (lib/file-type-filter.js:21). */
    predicate Supported() {
      !Unsupported?
    }
  }

  /**
   * What one call of `_transform` does with its chunk: push it downstream,
   * fail the callback with "Stream type not allowed", or neither.
   */
  datatype Action = Forward(data: seq<bv8>) | Error | Withhold

  /** `Array.prototype.indexOf` on an array of strings: first index of `t`, or -1. */
  function IndexOf(ts: seq<string>, t: string): (r: int)
    ensures -1 <= r < |ts|
    ensures r == -1 <==> t !in ts
    ensures 0 <= r ==> ts[r] == t && t !in ts[..r]
  {
    if ts == [] then -1
    else if ts[0] == t then 0
    else
      var k := IndexOf(ts[1..], t);
      if k < 0 then -1 else k + 1
  }

  /** `_isAllowed`: evaluate the policy on a detected MIME type. */
  function IsAllowed(policy: Policy, mime: string): (r: bool)
    requires policy.Supported()
    ensures policy.Exact? ==> (r <==> mime == policy.mime)
    ensures policy.OneOf? ==> (r <==> mime in policy.mimes)
    ensures policy.Pred? ==> r == policy.allows(mime)
  {
    match policy
    case Exact(m) => mime == m
    case Pred(p) => p(mime)
    case OneOf(ms) => IndexOf(ms, mime) >= 0
  }

  function Min(a: nat, b: nat): nat {
    if a <= b then a else b
  }

  /**
   * How many bytes Node's `Buffer.copy` moves into a target of `capacity`
   * bytes at `offset`: none when the offset is past the end, otherwise as
   * many as fit.
   */
  function CopyLength(capacity: nat, offset: nat, len: nat): nat {
    if offset >= capacity then 0 else Min(len, capacity - offset)
  }

  /** `chunk.copy(buf, offset)` on the value of `buf`. */
  function CopyInto(buf: seq<bv8>, chunk: seq<bv8>, offset: nat): (r: seq<bv8>)
    ensures |r| == |buf|
    ensures offset >= |buf| ==> r == buf
    ensures forall i :: 0 <= i < |buf| ==>
      r[i] == if offset <= i < offset + CopyLength(|buf|, offset, |chunk|) then chunk[i - offset] else buf[i]
  {
    var n := CopyLength(|buf|, offset, |chunk|);
    if n == 0 then buf else buf[..offset] + chunk[..n] + buf[offset + n..]
  }

  /** The filter's fields as a value: state, byte counter and buffer contents. */
  datatype Snapshot = Snapshot(state: State, count: nat, buf: seq<bv8>)

  /**
   * The invariant the filter keeps: the buffer has its fixed size and, while
   * undecided, the counter is below it, so the copy offset is in range.
   */
  predicate Inv(s: Snapshot) {
    |s.buf| == BYTES_REQUIRED && (s.state == Unclassified ==> s.count < BYTES_REQUIRED)
  }

  /** The freshly constructed filter (lib/file-type-filter.js:27-33). */
  function Initial(): (s: Snapshot)
    ensures Inv(s) && s.state == Unclassified && s.count == 0
    ensures forall i :: 0 <= i < |s.buf| ==> s.buf[i] == 0
  {
    Snapshot(Unclassified, 0, seq(BYTES_REQUIRED, _ => 0))
  }

  datatype Transition = Transition(next: Snapshot, action: Action)

  /**
   * One call of `_transform` on the value of the filter
   * (lib/file-type-filter.js:38-80).
   */
  function Step(policy: Policy, classify: Classifier, s: Snapshot, chunk: seq<bv8>): (r: Transition)
    requires policy.Supported()
    // the action is determined by the state reached
    ensures r.next.state == Allowed <==> r.action == Forward(chunk)
    ensures r.next.state == Blocked <==> r.action == Error
    ensures r.next.state == Unclassified <==> r.action == Withhold
    // decided states are absorbing and leave everything untouched
    ensures s.state != Unclassified ==> r.next == s
    // the counter never decreases and the invariant is kept
    ensures s.count <= r.next.count
    ensures Inv(s) ==> Inv(r.next)
  {
    match s.state
    case Allowed => Transition(s, Forward(chunk))
    case Blocked => Transition(s, Error)
    case Unclassified =>
      var buf := CopyInto(s.buf, chunk, s.count);
      var count := s.count + |chunk|;
      match classify(buf)
      case Some(t) =>
        if IsAllowed(policy, t.mime) then Transition(Snapshot(Allowed, count, buf), Forward(chunk))
        else Transition(Snapshot(Blocked, count, buf), Error)
      case None =>
        if count >= BYTES_REQUIRED then Transition(Snapshot(Blocked, count, buf), Error)
        else Transition(Snapshot(Unclassified, count, buf), Withhold)
  }

  /**
   * What an undecided step does, case by case: the counter grows by the whole
   * chunk, the buffer takes the bytes that fit at the old counter and keeps
   * the rest, and the classifier's verdict on the new buffer decides.
   */
  lemma UndecidedStep(policy: Policy, classify: Classifier, s: Snapshot, chunk: seq<bv8>)
    requires policy.Supported() && Inv(s) && s.state == Unclassified
    ensures var r := Step(policy, classify, s, chunk);
      var n := Min(|chunk|, BYTES_REQUIRED - s.count);
      && r.next.count == s.count + |chunk|
      && |r.next.buf| == BYTES_REQUIRED
      && r.next.buf[s.count..s.count + n] == chunk[..n]
      && (forall i :: 0 <= i < s.count ==> r.next.buf[i] == s.buf[i])
      && (forall i :: s.count + n <= i < BYTES_REQUIRED ==> r.next.buf[i] == s.buf[i])
      && match classify(r.next.buf)
         case Some(t) =>
           r.next.state == (if IsAllowed(policy, t.mime) then Allowed else Blocked)
         case None =>
           r.next.state == (if s.count + |chunk| >= BYTES_REQUIRED then Blocked else Unclassified)
  {
  }

  /**
   * A `FileTypeFilter` instance: the fields the source keeps on `this`
   * (lib/file-type-filter.js:27-30) plus the classifier it calls.
   */
  class FileTypeFilter {
    const buf: array<bv8>
    var count: nat
    var state: State
    const policy: Policy
    const classify: Classifier

    /** The fields as a value. */
    ghost function Snap(): Snapshot
      reads this, buf
    {
      Snapshot(state, count, buf[..])
    }

    /** The constructor's shape check holds and the fields keep `Inv`. */
    ghost predicate Valid()
      reads this, buf
    {
      policy.Supported() && Inv(Snap())
    }

    /** The constructor (lib/file-type-filter.js:19-34). */
    constructor (policy: Policy, classify: Classifier)
      requires policy.Supported()
      ensures Valid() && fresh(buf)
      ensures Snap() == Initial()
      ensures this.policy == policy && this.classify == classify
    {
      this.policy := policy;
      this.classify := classify;
      buf := new bv8[BYTES_REQUIRED];
      count := 0;
      state := Unclassified;
      new;
      forall i | 0 <= i < buf.Length {
        buf[i] := 0;
      }
    }

    /** `_transform(chunk)` (lib/file-type-filter.js:38-80). */
    method Transform(chunk: seq<bv8>) returns (action: Action)
      requires Valid()
      modifies this, buf
      ensures Valid()
      ensures Transition(Snap(), action) == Step(policy, classify, old(Snap()), chunk)
      ensures old(state) == Allowed ==> action == Forward(chunk) && unchanged(this) && unchanged(buf)
      ensures old(state) == Blocked ==> action == Error && unchanged(this) && unchanged(buf)
    {
      if state == Allowed {
        action := Forward(chunk);
      } else if state == Blocked {
        action := Error;
      } else {
        ghost var before := buf[..];
        var n := CopyLength(buf.Length, count, |chunk|);
        forall i | 0 <= i < n {
          buf[count + i] := chunk[i];
        }
        assert buf[..] == CopyInto(before, chunk, count);
        count := count + |chunk|;
        var t := classify(buf[..]);
        match t
        case Some(ft) =>
          if IsAllowed(policy, ft.mime) {
            state := Allowed;
            action := Forward(chunk);
          } else {
            state := Blocked;
            action := Error;
          }
        case None =>
          if count >= BYTES_REQUIRED {
            state := Blocked;
            action := Error;
          } else {
            action := Withhold;
          }
      }
    }
  }
}

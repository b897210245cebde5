/**
 The version of the source tree through its release cycle: a development or post release
 version is updated to the next release, and a published release is given a post release
 suffix.  Versions are ordered as PEP 440 orders them, section "Summary of permitted suffixes
 and relative ordering".
*/
module ReleaseCycle {
  import opened Basics

  datatype PreKind = Alpha | Beta | Candidate

  datatype PreTag = PreTag(kind: PreKind, number: nat)

  datatype Version = Version(epoch: nat, release: seq<nat>, pre: Option<PreTag>, post: Option<nat>, dev: Option<nat>,
                             localLabel: Option<string>)

  /**
   What the option for a pre-release holds: a tag, or any other text, of which PEP 440 makes a
   version together with the release it is put behind, or nothing.
  */
  datatype PreText = Tag(tag: PreTag) | Text(reading: seq<nat> -> Option<Version>)

  datatype Mode = DEFAULT | STRIP_POST | REQUIRE_POST | REQUIRE_DEV_POST | ALLOW_DEV_POST

  datatype Refusal =
    | Invalid       // no version at all
    | WrongLength | HasEpoch | HasLocal | DevAndPost | NotDevOrPost | IsDev | NotPost | IsPost
    | OtherSeries   // another major.minor
    | Older         // than the current version

  // ---------------------------------------------------------------- order

  /** Position of the pre-release part: a development release of a final version comes first of all. */
  function PreRank(v: Version): int {
    match v.pre
    case Some(PreTag(Alpha, _)) => 1
    case Some(PreTag(Beta, _)) => 2
    case Some(PreTag(Candidate, _)) => 3
    case None => if v.post.None? && v.dev.Some? then 0 else 4
  }

  /** The parts of a version in the order in which PEP 440 compares them. */
  function Key(v: Version): seq<int>
    requires |v.release| == 3
  {
    [v.release[0], v.release[1], v.release[2],
     PreRank(v), if v.pre.Some? then v.pre.value.number else 0,
     if v.post.Some? then v.post.value else -1,
     if v.dev.Some? then 0 else 1, if v.dev.Some? then v.dev.value else 0]
  }

  predicate LexLess(a: seq<int>, b: seq<int>) {
    if a == [] || b == [] then a == [] && b != []
    else a[0] < b[0] || (a[0] == b[0] && LexLess(a[1..], b[1..]))
  }

  /** Three components and nothing but a pre-release, post-release and development part, not both of the last two. */
  predicate Plain(v: Version) {
    |v.release| == 3 && v.epoch == 0 && v.localLabel.None? && !(v.dev.Some? && v.post.Some?)
  }

  predicate Less(a: Version, b: Version)
    requires |a.release| == 3 && |b.release| == 3
  {
    LexLess(Key(a), Key(b))
  }

  // ---------------------------------------------------------------- the rules

  function Apply(mode: Mode, v: Version): Result<Version, Refusal> {
    if |v.release| != 3 then Failure(WrongLength)
    else if v.epoch != 0 then Failure(HasEpoch)
    else if v.localLabel.Some? then Failure(HasLocal)
    else if v.dev.Some? && v.post.Some? then Failure(DevAndPost)
    else if mode == ALLOW_DEV_POST then Success(v)
    else if mode == REQUIRE_DEV_POST then (if v.dev.None? && v.post.None? then Failure(NotDevOrPost) else Success(v))
    else if v.dev.Some? then Failure(IsDev)
    else if mode == STRIP_POST then Success(v.(post := None))
    else if mode == REQUIRE_POST then (if v.post.None? then Failure(NotPost) else Success(v))
    else if v.post.Some? then Failure(IsPost)
    else Success(v)
  }

  function Plainly(major: nat, minor: nat, micro: nat, pre: Option<PreTag>): Version {
    Version(0, [major, minor, micro], pre, None, None, None)
  }

  /** The version that is read from a release and the text behind it. */
  function Read(major: nat, minor: nat, micro: nat, pre: Option<PreText>): Result<Version, Refusal> {
    match pre
    case None => Apply(DEFAULT, Plainly(major, minor, micro, None))
    case Some(Tag(tag)) => Apply(DEFAULT, Plainly(major, minor, micro, Some(tag)))
    case Some(Text(reading)) =>
      match reading([major, minor, micro])
      case None => Failure(Invalid)
      case Some(v) => Apply(DEFAULT, v)
  }

  function AsText(pre: Option<PreTag>): Option<PreText> {
    if pre.Some? then Some(Tag(pre.value)) else None
  }

  function NextVersion(v: Version, final: bool, pre: Option<PreText>): Result<Version, Refusal>
    requires |v.release| == 3
  {
    if v.dev.Some? then
      var text := if final then None else if pre.None? then AsText(v.pre) else pre;
      Read(v.release[0], v.release[1], v.release[2], text)
    else if v.post.Some? then
      var text := if final then None
                  else if pre.None? && v.pre.Some? then Some(Tag(v.pre.value.(number := v.pre.value.number + 1)))
                  else pre;
      var micro := if v.pre.None? then v.release[2] + 1 else v.release[2];
      Read(v.release[0], v.release[1], micro, text)
    else Failure(NotDevOrPost)
  }

  /** The new version must be of the same series and not older. */
  function Check(current: Version, requested: Version): Option<Refusal>
    requires |current.release| == 3 && |requested.release| == 3
  {
    if requested.release[..2] != current.release[..2] then Some(OtherSeries)
    else if Less(requested, current) then Some(Older)
    else None
  }

  class ReleaseFile {
    var version: Version

    constructor (version: Version)
      ensures this.version == version
    {
      this.version := version;
    }

    /** Writes the requested version unless it is refused; the same version is not written again. */
    method SetVersion(current: Version, requested: Version) returns (r: Result<(), Refusal>)
      requires |current.release| == 3 && |requested.release| == 3
      modifies this
      ensures match Check(current, requested)
              case Some(why) => r == Failure(why) && version == old(version)
              case None => r == Success(()) && version == if requested == current then old(version) else requested
    {
      var refusal := Check(current, requested);
      if refusal.Some? {
        return Failure(refusal.value);
      }
      if requested != current {
        version := requested;
      }
      return Success(());
    }

    /** A version given outright is taken over `final` and `pre`. */
    method UpdateVersion(final: bool, pre: Option<PreText>, explicit: Option<Version>) returns (r: Result<(), Refusal>)
      modifies this
      ensures var after := After(old(version), Update(final, pre, explicit));
              if after.Success? then r == Success(()) && version == after.value
              else r == Failure(after.error) && version == old(version)
    {
      var current := Apply(REQUIRE_DEV_POST, version);
      if current.Failure? {
        return Failure(current.error);
      }
      var requested := if explicit.Some? then Apply(DEFAULT, explicit.value)
                       else NextVersion(current.value, final, pre);
      if requested.Failure? {
        return Failure(requested.error);
      }
      r := SetVersion(current.value, requested.value);
    }

    method PostVersion() returns (r: Result<(), Refusal>)
      modifies this
      ensures var after := After(old(version), Post);
              if after.Success? then r == Success(()) && version == after.value
              else r == Failure(after.error) && version == old(version)
    {
      var current := Apply(DEFAULT, version);
      if current.Failure? {
        return Failure(current.error);
      }
      var requested := Apply(REQUIRE_POST, current.value.(post := Some(0)));
      if requested.Failure? {
        return Failure(requested.error);
      }
      r := SetVersion(current.value, requested.value);
    }
  }

  // ---------------------------------------------------------------- steps and runs

  datatype Command = Update(final: bool, pre: Option<PreText>, explicit: Option<Version>) | Post

  /** The version stored after a command, or why the command is refused. */
  function After(v: Version, c: Command): Result<Version, Refusal> {
    var current := Apply(if c.Post? then DEFAULT else REQUIRE_DEV_POST, v);
    if current.Failure? then current
    else
      var requested :=
        if c.Post? then Apply(REQUIRE_POST, v.(post := Some(0)))
        else if c.explicit.Some? then Apply(DEFAULT, c.explicit.value)
        else NextVersion(v, c.final, c.pre);
      if requested.Failure? then requested
      else
        match Check(v, requested.value)
        case Some(why) => Failure(why)
        case None => requested
  }

  /** The stored versions of a run of commands that all succeed. */
  predicate History(versions: seq<Version>, commands: seq<Command>) {
    && |versions| == |commands| + 1
    && forall i :: 0 <= i < |commands| ==> Stores(versions[i], commands[i], versions[i + 1])
  }

  predicate Stores(v: Version, c: Command, w: Version) {
    After(v, c) == Success(w)
  }

  // ---------------------------------------------------------------- the order is one

  lemma {:induction false} LexTransitive(a: seq<int>, b: seq<int>, c: seq<int>)
    requires LexLess(a, b) && LexLess(b, c)
    ensures LexLess(a, c)
    decreases |a|
  {
    if a != [] && a[0] == b[0] == c[0] {
      LexTransitive(a[1..], b[1..], c[1..]);
    }
  }

  lemma {:induction false} LexTotal(a: seq<int>, b: seq<int>)
    requires |a| == |b|
    ensures !LexLess(a, a)
    ensures a == b || LexLess(a, b) || LexLess(b, a)
    ensures !(LexLess(a, b) && LexLess(b, a))
    decreases |a|
  {
    if a != [] {
      LexTotal(a[1..], b[1..]);
      if a[0] == b[0] && a[1..] == b[1..] {
        assert a == [a[0]] + a[1..] && b == [b[0]] + b[1..];
      }
    }
  }

  /** Keys tell plain versions apart, so the order on them is a strict total order. */
  lemma {:induction false} OrderIsTotal(a: Version, b: Version)
    requires Plain(a) && Plain(b)
    ensures a == b || Less(a, b) || Less(b, a)
    ensures !(Less(a, b) && Less(b, a)) && !Less(a, a)
  {
    LexTotal(Key(a), Key(b));
    if Key(a) == Key(b) {
      SameKey(a, b);
    }
  }

  lemma {:induction false} SameKey(a: Version, b: Version)
    requires Plain(a) && Plain(b) && Key(a) == Key(b)
    ensures a == b
  {
    forall i | 0 <= i < 8
      ensures Key(a)[i] == Key(b)[i]
    {
    }
    assert Key(a)[0] == Key(b)[0] && Key(a)[1] == Key(b)[1] && Key(a)[2] == Key(b)[2];
    assert a.release == b.release;
    assert Key(a)[3] == Key(b)[3] && Key(a)[4] == Key(b)[4] && Key(a)[5] == Key(b)[5];
    assert Key(a)[6] == Key(b)[6] && Key(a)[7] == Key(b)[7];
  }

  /** Keys are compared at the first place where they differ. */
  lemma {:induction false} FirstDifference(a: seq<int>, b: seq<int>, k: nat)
    requires |a| == |b| && k < |a| && a[k] != b[k] && forall i :: 0 <= i < k ==> a[i] == b[i]
    ensures LexLess(a, b) <==> a[k] < b[k]
    decreases k
  {
    if k > 0 {
      FirstDifference(a[1..], b[1..], k - 1);
    }
  }

  // ---------------------------------------------------------------- every run climbs

  lemma {:induction false} AcceptedIsPlain(mode: Mode, v: Version)
    ensures Apply(mode, v).Success? ==> Plain(v) && Plain(Apply(mode, v).value)
  {
  }

  /** A command that succeeds stores a later version of the same series. */
  lemma {:induction false} StepClimbs(v: Version, c: Command, w: Version)
    requires Stores(v, c, w)
    ensures Plain(v) && Plain(w) && Less(v, w) && v.release[..2] == w.release[..2]
  {
    hide Less;
    AcceptedIsPlain(if c.Post? then DEFAULT else REQUIRE_DEV_POST, v);
    assert v != w;
    OrderIsTotal(v, w);
  }

  lemma {:induction false} HistoryClimbs(versions: seq<Version>, commands: seq<Command>, i: nat, j: nat)
    requires History(versions, commands) && i < j < |versions|
    ensures Plain(versions[i]) && Plain(versions[j])
    ensures Less(versions[i], versions[j]) && versions[i].release[..2] == versions[j].release[..2]
    decreases j - i
  {
    hide Stores, Less;
    assert Stores(versions[j - 1], commands[j - 1], versions[j]);
    StepClimbs(versions[j - 1], commands[j - 1], versions[j]);
    if i < j - 1 {
      HistoryClimbs(versions, commands, i, j - 1);
      LessTransitive(versions[i], versions[j - 1], versions[j]);
    }
  }

  lemma {:induction false} LessTransitive(a: Version, b: Version, c: Version)
    requires |a.release| == |b.release| == |c.release| == 3 && Less(a, b) && Less(b, c)
    ensures Less(a, c)
  {
    LexTransitive(Key(a), Key(b), Key(c));
  }

  // ---------------------------------------------------------------- no dead ends

  predicate Released(v: Version) {
    v.dev.None? && v.post.None?
  }

  /** The version that follows without any arguments. */
  function Follows(v: Version): Version
    requires |v.release| == 3
  {
    if Released(v) then v.(post := Some(0))
    else if v.dev.Some? then v.(dev := None)
    else if v.pre.Some? then v.(pre := Some(v.pre.value.(number := v.pre.value.number + 1)), post := None)
    else v.(release := v.release[2 := v.release[2] + 1], post := None)
  }

  lemma {:induction false} LaterBy(v: Version, w: Version, k: nat)
    requires |v.release| == 3 && |w.release| == 3 && k < 8
    requires Key(v)[k] < Key(w)[k] && forall i :: 0 <= i < k ==> Key(v)[i] == Key(w)[i]
    ensures Less(v, w) && !Less(w, v)
  {
    FirstDifference(Key(v), Key(w), k);
    FirstDifference(Key(w), Key(v), k);
  }

  lemma {:induction false} FollowsIsLater(v: Version)
    requires Plain(v)
    ensures Less(v, Follows(v)) && !Less(Follows(v), v)
  {
    hide Less;
    var w := Follows(v);
    if Released(v) {
      LaterBy(v, w, 5);
    } else if v.dev.Some? {
      if v.pre.Some? {
        LaterBy(v, w, 6);
      } else {
        LaterBy(v, w, 3);
      }
    } else if v.pre.Some? {
      LaterBy(v, w, 4);
    } else {
      LaterBy(v, w, 2);
    }
  }

  /** Leaving the pre-release behind gives a later version as well. */
  lemma {:induction false} FinalIsLater(v: Version)
    requires Plain(v) && !Released(v)
    ensures NextVersion(v, true, None).Success?
    ensures var w := NextVersion(v, true, None).value; Plain(w) && Less(v, w) && !Less(w, v)
  {
    hide Less;
    var w := NextVersion(v, true, None).value;
    if v.post.Some? && v.pre.None? {
      LaterBy(v, w, 2);
    } else {
      LaterBy(v, w, 3);
    }
  }

  /**
   Without explicit arguments no check ever refuses the version that comes next, and of the two
   commands exactly one applies to every plain version.
  */
  lemma {:induction false} NeverStuck(v: Version)
    requires Plain(v)
    ensures After(v, Post)
         == if Released(v) then Success(Follows(v)) else Failure(if v.dev.Some? then IsDev else IsPost)
    ensures After(v, Update(false, None, None)) == if Released(v) then Failure(NotDevOrPost) else Success(Follows(v))
    ensures After(v, Update(true, None, None))
         == if Released(v) then Failure(NotDevOrPost) else NextVersion(v, true, None)
  {
    hide Less;
    FollowsIsLater(v);
    if !Released(v) {
      FinalIsLater(v);
      assert NextVersion(v, false, None).Success?;
      assert NextVersion(v, false, None).value.release == Follows(v).release;
    }
  }

  // ---------------------------------------------------------------- asking for a pre-release

  predicate TagLess(a: PreTag, b: PreTag) {
    Rank(a.kind) < Rank(b.kind) || (a.kind == b.kind && a.number < b.number)
  }

  function Rank(k: PreKind): nat {
    match k
    case Alpha => 1
    case Beta => 2
    case Candidate => 3
  }

  /** The release the next version is of: the one under way, unless it was published without a pre-release part. */
  function NextRelease(v: Version): seq<nat>
    requires |v.release| == 3
  {
    if v.post.Some? && v.pre.None? then [v.release[0], v.release[1], v.release[2] + 1] else v.release
  }

  /** The version asked for by an explicit pre-release. */
  function Asked(v: Version, tag: PreTag): Version
    requires |v.release| == 3
  {
    Plainly(v.release[0], v.release[1],
            if v.post.Some? && v.pre.None? then v.release[2] + 1 else v.release[2], Some(tag))
  }

  lemma {:induction false} AskedIsChecked(v: Version, tag: PreTag)
    requires Plain(v) && !Released(v)
    ensures After(v, Update(false, Some(Tag(tag)), None)).Success? <==> !Less(Asked(v, tag), v)
    ensures After(v, Update(false, Some(Tag(tag)), None)).Success? ==>
              After(v, Update(false, Some(Tag(tag)), None)) == Success(Asked(v, tag))
  {
    hide Less;
    assert NextVersion(v, false, Some(Tag(tag))) == Success(Asked(v, tag));
  }

  /**
   An explicit pre-release is refused exactly when it goes back: before the current one, or, on
   a post release, to the current one itself, which was published already.
  */
  lemma {:induction false} PreAcceptedExactly(v: Version, tag: PreTag)
    requires Plain(v) && !Released(v)
    ensures After(v, Update(false, Some(Tag(tag)), None)).Success?
       <==> v.pre.None? || TagLess(v.pre.value, tag) || (tag == v.pre.value && v.dev.Some?)
    ensures var after := After(v, Update(false, Some(Tag(tag)), None));
            after.Success? ==> after.value == Version(0, NextRelease(v), Some(tag), None, None, None)
  {
    hide Less, After;
    AskedIsChecked(v, tag);
    Apart(v, Asked(v, tag),
          if v.post.Some? && v.pre.None? then 2
          else if v.pre.None? || v.pre.value.kind != tag.kind then 3
          else if v.pre.value.number != tag.number then 4
          else if v.post.Some? then 5 else 6);
  }

  lemma {:induction false} Apart(v: Version, w: Version, k: nat)
    requires |v.release| == 3 && |w.release| == 3 && k < 8
    requires Key(v)[k] != Key(w)[k] && forall i :: 0 <= i < k ==> Key(v)[i] == Key(w)[i]
    ensures Less(v, w) <==> Key(v)[k] < Key(w)[k]
    ensures Less(w, v) <==> Key(w)[k] < Key(v)[k]
  {
    FirstDifference(Key(v), Key(w), k);
    FirstDifference(Key(w), Key(v), k);
  }

  /** With any other text, only the version that the text reads as can be stored. */
  lemma {:induction false} TextStored(v: Version, reading: seq<nat> -> Option<Version>, w: Version)
    requires After(v, Update(false, Some(Text(reading)), None)) == Success(w)
    ensures Plain(v) && !Released(v) && reading(NextRelease(v)) == Some(w)
  {
    hide Less;
    assert v.release == [v.release[0], v.release[1], v.release[2]];
  }

  /** The final release is stored whatever pre-release is given. */
  lemma {:induction false} FinalStored(v: Version, pre: Option<PreText>)
    requires Plain(v) && !Released(v)
    ensures After(v, Update(true, pre, None)) == Success(Version(0, NextRelease(v), None, None, None, None))
  {
    hide Less;
    FinalIsLater(v);
    assert v.release == [v.release[0], v.release[1], v.release[2]];
  }

  /**
   A version given outright is stored itself or not at all, whatever else is given: exactly when it
   is a later release of the same series and the current one is no release.
  */
  lemma {:induction false} ExplicitStoredExactly(v: Version, final: bool, pre: Option<PreText>, w: Version)
    ensures var after := After(v, Update(final, pre, Some(w)));
            && (after.Success? ==> after.value == w)
            && (after.Success? <==>
                  && Plain(v) && !Released(v) && Plain(w) && Released(w)
                  && v.release[0] == w.release[0] && v.release[1] == w.release[1] && Less(v, w))
  {
    hide Less;
    if Plain(v) && Plain(w) {
      OrderIsTotal(v, w);
      assert v.release[..2] == [v.release[0], v.release[1]] && w.release[..2] == [w.release[0], w.release[1]];
    }
  }

  // ---------------------------------------------------------------- post releases and back

  /** Stripping undoes the post step, and what is stripped came from the post step exactly when it was number 0. */
  lemma {:induction false} StripUndoesPost(v: Version, w: Version)
    requires Plain(v) && Released(v) && Plain(w) && w.post.Some?
    ensures After(v, Post).Success? && Apply(STRIP_POST, After(v, Post).value) == Success(v)
    ensures Apply(STRIP_POST, w) == Success(v) && w.post == Some(0) <==> After(v, Post) == Success(w)
  {
    NeverStuck(v);
  }

  // ---------------------------------------------------------------- the whole cycle

  /** A post step and an update without arguments. */
  function Round(n: nat): (commands: seq<Command>)
    ensures |commands| == 2 * n
  {
    if n == 0 then [] else Round(n - 1) + [Post, Update(false, None, None)]
  }

  /** The n-th release after `v`. */
  function Nth(v: Version, n: nat): Version
    requires |v.release| == 3
  {
    if v.pre.Some? then v.(pre := Some(v.pre.value.(number := v.pre.value.number + n)))
    else v.(release := v.release[2 := v.release[2] + n])
  }

  /** From a release, n rounds lead through every release in between to the n-th one after it. */
  lemma {:induction false} RoundsCount(v: Version, n: nat) returns (versions: seq<Version>)
    requires Plain(v) && Released(v)
    ensures History(versions, Round(n)) && versions[0] == v
    ensures forall i :: 0 <= i <= n ==> versions[2 * i] == Nth(v, i)
    decreases n
  {
    hide After, Less;
    if n == 0 {
      versions := [v];
      assert Nth(v, 0) == v;
    } else {
      var before := RoundsCount(v, n - 1);
      var r := Nth(v, n - 1);
      var p := Follows(r);
      NeverStuck(r);
      NeverStuck(p);
      assert Follows(p) == Nth(v, n);
      versions := before + [p, Follows(p)];
      forall i | 0 <= i < 2 * n
        ensures Stores(versions[i], Round(n)[i], versions[i + 1])
      {
        if i < 2 * (n - 1) {
          assert Stores(before[i], Round(n - 1)[i], before[i + 1]);
        }
      }
    }
  }
}

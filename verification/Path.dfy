// fs_normalize_path of lib/fs/fs.c: a state machine that rewrites a path in place.
module Path {
  import opened CStrings

  // ------------------------------------------------------------- what normalising means

  /** The fields of a path: the pieces between slashes. */
  function Split(s: string): (r: seq<string>)
    ensures |r| > 0
    ensures forall f :: f in r ==> '/' !in f
  {
    if s == "" then [""]
    else
      var r := Split(s[1..]);
      if s[0] == '/' then [""] + r else [[s[0]] + r[0]] + r[1..]
  }

  function Join(fields: seq<string>): string {
    if fields == [] then ""
    else if |fields| == 1 then fields[0]
    else fields[0] + "/" + Join(fields[1..])
  }

  /** Empty fields and "." change nothing, ".." drops the last field if there is one, others are kept. */
  function Apply(stack: seq<string>, field: string): seq<string> {
    if field == "" || field == "." then stack
    else if field == ".." then (if stack == [] then [] else stack[..|stack| - 1])
    else stack + [field]
  }

  function Fold(stack: seq<string>, fields: seq<string>): seq<string>
    decreases |fields|
  {
    if fields == [] then stack else Fold(Apply(stack, fields[0]), fields[1..])
  }

  /** A leading slash puts an empty root field first. */
  function Resolve(s: string): seq<string> {
    if s != "" && s[0] == '/' then Fold([""], Split(s[1..])) else Fold([], Split(s))
  }

  function Normal(s: string): string {
    Join(Resolve(s))
  }

  // ------------------------------------------------------------- properties of the result

  predicate Special(f: string) {
    f == "" || f == "." || f == ".."
  }

  /** Only the root field, which comes first, may be empty; no field is "." or "..". */
  predicate CleanStack(fields: seq<string>) {
    && (forall f :: f in fields ==> '/' !in f)
    && (forall i :: 0 <= i < |fields| ==> !Special(fields[i]) || (i == 0 && fields[i] == ""))
  }

  lemma {:induction false} FoldClean(stack: seq<string>, fields: seq<string>)
    requires CleanStack(stack) && forall f :: f in fields ==> '/' !in f
    ensures CleanStack(Fold(stack, fields))
    decreases |fields|
  {
    if fields == [] {
    } else {
      assert fields[0] in fields;
      FoldClean(Apply(stack, fields[0]), fields[1..]);
    }
  }

  lemma ResolveClean(s: string)
    ensures CleanStack(Resolve(s))
  {
    if s != "" && s[0] == '/' {
      FoldClean([""], Split(s[1..]));
    } else {
      FoldClean([], Split(s));
    }
  }

  lemma {:induction false} SplitField(f: string)
    requires '/' !in f
    ensures Split(f) == [f]
  {
    if f == "" {
    } else {
      SplitField(f[1..]);
      assert [f[0]] + f[1..] == f;
    }
  }

  /** A field up to a slash comes off the front. */
  lemma {:induction false} SplitSlash(f: string, rest: string)
    requires '/' !in f
    ensures Split(f + "/" + rest) == [f] + Split(rest)
  {
    var s := f + "/" + rest;
    if f == "" {
      assert s[1..] == rest;
    } else {
      SplitSlash(f[1..], rest);
      assert s[1..] == f[1..] + "/" + rest;
      assert [f[0]] + f[1..] == f;
    }
  }

  /** Joining and splitting undo each other. */
  lemma {:induction false} SplitJoin(fields: seq<string>)
    requires fields != [] && forall f :: f in fields ==> '/' !in f
    ensures Split(Join(fields)) == fields
  {
    assert fields[0] in fields;
    if |fields| == 1 {
      SplitField(fields[0]);
    } else {
      SplitSlash(fields[0], Join(fields[1..]));
      SplitJoin(fields[1..]);
    }
  }

  /** Plain fields are all kept. */
  lemma {:induction false} FoldPlain(stack: seq<string>, fields: seq<string>)
    requires forall f :: f in fields ==> !Special(f)
    ensures Fold(stack, fields) == stack + fields
    decreases |fields|
  {
    if fields == [] {
    } else {
      assert fields[0] in fields;
      FoldPlain(stack + [fields[0]], fields[1..]);
      assert stack + [fields[0]] + fields[1..] == stack + fields;
    }
  }

  lemma PlainTail(fields: seq<string>, f: string)
    requires CleanStack(fields) && fields != [] && f in fields[1..]
    ensures !Special(f)
  {
    var i :| 0 <= i < |fields[1..]| && fields[1..][i] == f;
    assert fields[i + 1] == f;
  }

  /** A clean list of fields is what its own path resolves to; the root alone joins to nothing. */
  lemma ResolveJoin(fields: seq<string>)
    requires CleanStack(fields)
    ensures Join(Resolve(Join(fields))) == Join(fields)
  {
    if fields == [] || fields == [""] {
      assert Join(fields) == "";
      assert Resolve("") == Fold([], [""]) == Fold(Apply([], ""), []);
    } else {
      SplitJoin(fields);
      forall f | f in fields[1..]
        ensures !Special(f)
      {
        PlainTail(fields, f);
      }
      assert fields[0] in fields;
      var s := Join(fields);
      if fields[0] == "" {
        assert s == "/" + Join(fields[1..]);
        assert s[1..] == Join(fields[1..]);
        SplitJoin(fields[1..]);
        FoldPlain([""], fields[1..]);
        assert [""] + fields[1..] == fields;
      } else {
        assert forall f :: f in fields ==> !Special(f) by { assert fields == [fields[0]] + fields[1..]; }
        assert s[0] == fields[0][0];
        FoldPlain([], fields);
        assert [] + fields == fields;
      }
    }
  }

  /** Normalising twice is normalising once. */
  lemma NormalIsIdempotent(s: string)
    ensures Normal(Normal(s)) == Normal(s)
  {
    ResolveClean(s);
    ResolveJoin(Resolve(s));
  }

  /** A field and the ".." after it cancel; the root field of an absolute path is no exception. */
  lemma DotDotCancels(f: string, rest: string)
    requires '/' !in f && f != "." && f != ".." && (rest == "" || rest[0] != '/')
    ensures Normal(f + "/../" + rest) == Normal(rest)
  {
    hide Split, Fold, Join;
    var s := f + "/../" + rest;
    var tail := "../" + rest;
    TakeField(Apply([""], ""), "..", "/" + rest);
    TakeField([f], "..", "/" + rest);
    TakeField([], f, "/" + tail);
    assert ".." + ("/" + rest) == tail && ("/" + rest)[1..] == rest && ("/" + tail)[1..] == tail;
    assert f + ("/" + tail) == s;
    if f == "" {
      assert s[0] == '/' && s[1..] == tail;
      assert Apply([""], "..") == [];
    } else {
      assert s[0] == f[0];
      assert Apply([], f) == [f] && Apply([f], "..") == [];
    }
  }

  lemma SplitStep(s: string)
    requires s != ""
    ensures var r := Split(s[1..]); Split(s) == if s[0] == '/' then [""] + r else [[s[0]] + r[0]] + r[1..]
  {
  }

  lemma SplitNothing()
    ensures Split("") == [""]
  {
  }

  lemma FieldInFront(c: string, a: seq<string>, b: seq<string>)
    requires a != []
    ensures [c + (a + b)[0]] + (a + b)[1..] == [c + a[0]] + a[1..] + b
    ensures [""] + (a + b) == [""] + a + b
  {
  }

  lemma {:induction false} SplitConcat(a: string, x: string)
    ensures Split(a + "/" + x) == Split(a) + Split(x)
  {
    hide Split;
    var s := a + "/" + x;
    SplitStep(s);
    if a == "" {
      assert s[1..] == x;
      SplitNothing();
    } else {
      SplitConcat(a[1..], x);
      SplitStep(a);
      assert s[0] == a[0] && s[1..] == a[1..] + "/" + x;
      FieldInFront([a[0]], Split(a[1..]), Split(x));
    }
  }

  lemma FoldStep(stack: seq<string>, f: string, rest: seq<string>)
    ensures Fold(stack, [f] + rest) == Fold(Apply(stack, f), rest) && Fold(stack, []) == stack
  {
    hide Apply;
    assert ([f] + rest)[1..] == rest;
  }

  lemma {:induction false} FoldConcat(stack: seq<string>, a: seq<string>, b: seq<string>)
    ensures Fold(stack, a + b) == Fold(Fold(stack, a), b)
    decreases |a|
  {
    hide Fold, Apply;
    if a == [] {
      assert a + b == b;
      FoldStep(stack, "", []);
    } else {
      FoldConcat(Apply(stack, a[0]), a[1..], b);
      FoldStep(stack, a[0], a[1..]);
      FoldStep(stack, a[0], a[1..] + b);
      assert a + b == [a[0]] + (a[1..] + b) && a == [a[0]] + a[1..];
    }
  }

  /** Behind any stack of fields, one more and the ".." after it leave no trace. */
  lemma FoldCancels(stack: seq<string>, f: string, rest: string)
    requires '/' !in f && f != "" && f != "." && f != ".."
    ensures Fold(stack, Split(f + "/../" + rest)) == Fold(stack, Split(rest))
  {
    hide Split;
    assert f + "/" + ("../" + rest) == f + "/../" + rest && ".." + "/" + rest == "../" + rest;
    SplitSlash(f, "../" + rest);
    SplitSlash("..", rest);
    var r := Split(rest);
    assert ([f] + ([".."] + r))[1..] == [".."] + r && ([".."] + r)[1..] == r;
    assert Apply(stack, f) == stack + [f] && Apply(stack + [f], "..") == stack;
  }

  lemma FoldBehind(base: seq<string>, b: string, tail: string)
    ensures Fold(base, Split(b + "/" + tail)) == Fold(Fold(base, Split(b)), Split(tail))
  {
    hide Split, Fold;
    SplitConcat(b, tail);
    FoldConcat(base, Split(b), Split(tail));
  }

  /** The fields that the part of a path before a slash leaves. */
  function Before(a: string): seq<string> {
    if a == "" then [""] else Resolve(a)
  }

  /** The rest of the path goes on from there. */
  lemma NormalBehind(a: string, tail: string)
    ensures Normal(a + "/" + tail) == Join(Fold(Before(a), Split(tail)))
  {
    hide Split, Fold, Join;
    var s := a + "/" + tail;
    if a == "" {
      assert s[0] == '/' && s[1..] == tail;
    } else if a[0] == '/' {
      assert s[0] == '/' && s[1..] == a[1..] + "/" + tail;
      FoldBehind([""], a[1..], tail);
    } else {
      assert s[0] == a[0];
      FoldBehind([], a, tail);
    }
  }

  /** Two ends of a path that do the same to any fields in front do so behind any path. */
  lemma SameBehind(a: string, tail: string, rest: string)
    requires forall stack :: Fold(stack, Split(tail)) == Fold(stack, Split(rest))
    ensures Normal(a + "/" + tail) == Normal(a + "/" + rest)
  {
    hide Split, Fold, Join, Before, Normal;
    NormalBehind(a, tail);
    NormalBehind(a, rest);
  }

  /** A field and the ".." after it cancel at any place in a path. */
  lemma DotDotCancelsAnywhere(a: string, f: string, rest: string)
    requires '/' !in f && f != "" && f != "." && f != ".."
    ensures Normal(a + "/" + (f + "/../" + rest)) == Normal(a + "/" + rest)
  {
    hide Split, Fold, Join;
    forall stack
      ensures Fold(stack, Split(f + "/../" + rest)) == Fold(stack, Split(rest))
    {
      FoldCancels(stack, f, rest);
    }
    SameBehind(a, f + "/../" + rest, rest);
  }

  lemma FoldSkips(stack: seq<string>, x: string, rest: string)
    requires x == "" || x == "."
    ensures Fold(stack, Split(x + "/" + rest)) == Fold(stack, Split(rest))
  {
    hide Split;
    SplitSlash(x, rest);
    assert ([x] + Split(rest))[1..] == Split(rest);
  }

  /** Empty fields and "." vanish at any place. */
  lemma NothingFieldsVanish(a: string, x: string, rest: string)
    requires x == "" || x == "."
    ensures Normal(a + "/" + (x + "/" + rest)) == Normal(a + "/" + rest)
  {
    hide Split, Fold, Join;
    forall stack
      ensures Fold(stack, Split(x + "/" + rest)) == Fold(stack, Split(rest))
    {
      FoldSkips(stack, x, rest);
    }
    SameBehind(a, x + "/" + rest, rest);
  }

  /** At the start of a relative path "." and ".." vanish too. */
  lemma DotsInFrontVanish(x: string, rest: string)
    requires (x == "." || x == "..") && (rest == "" || rest[0] != '/')
    ensures Normal(x + "/" + rest) == Normal(rest)
  {
    hide Split, Join;
    var s := x + "/" + rest;
    assert s[0] == '.';
    SplitSlash(x, rest);
    assert ([x] + Split(rest))[1..] == Split(rest) && Apply([], x) == [];
  }

  lemma {:induction false} JoinSplit(s: string)
    ensures Join(Split(s)) == s
  {
    hide Split, Join;
    EmptyPath();
    OneField("");
    if s == "" {
    } else {
      JoinSplit(s[1..]);
      SplitStep(s);
      var r := Split(s[1..]);
      SlashInFront(r);
      JoinInFront(s[0], r[0], r[1..]);
      assert [r[0]] + r[1..] == r;
      assert [s[0]] + s[1..] == s;
    }
  }

  /** One more character in front: a slash starts an empty field ... */
  lemma SlashInFront(r: seq<string>)
    requires r != []
    ensures Join([""] + r) == "/" + Join(r)
  {
    assert ([""] + r)[1..] == r;
  }

  /** ... any other goes to the first field. */
  lemma JoinInFront(c: char, f: string, rest: seq<string>)
    ensures Join([[c] + f] + rest) == [c] + Join([f] + rest)
  {
    hide Join;
    if rest == [] {
      assert [f] + rest == [f] && [[c] + f] + rest == [[c] + f];
      OneField(f);
      OneField([c] + f);
    } else {
      MoreFields(f, rest);
      MoreFields([c] + f, rest);
      assert [c] + f + "/" + Join(rest) == [c] + (f + "/" + Join(rest));
    }
  }

  lemma MoreFields(f: string, rest: seq<string>)
    requires rest != []
    ensures Join([f] + rest) == f + "/" + Join(rest)
  {
    assert ([f] + rest)[1..] == rest;
  }

  /** Exactly the paths whose fields are plain, but for an empty one in front, are left as they are. */
  lemma KeptIffClean(s: string)
    ensures Normal(s) == s <==> CleanStack(Split(s))
  {
    hide Split, Join, Resolve;
    ResolveClean(s);
    if Normal(s) == s {
      if Resolve(s) == [] {
        EmptyPath();
      } else {
        SplitJoin(Resolve(s));
      }
    } else if CleanStack(Split(s)) {
      JoinSplit(s);
      ResolveJoin(Split(s));
    }
  }

  lemma OneField(f: string)
    ensures Join([f]) == f
  {
  }

  lemma EmptyPath()
    ensures Join([]) == "" && Split("") == [""]
  {
  }

  // ------------------------------------------------------------- the output buffer

  /** How the kept fields stand in the buffer while the path is read: each followed by a slash. */
  function Enc(stack: seq<string>): string {
    if stack == [] then "" else Enc(stack[..|stack| - 1]) + stack[|stack| - 1] + "/"
  }

  lemma {:induction false} EncFront(stack: seq<string>)
    requires stack != []
    ensures Enc(stack) == stack[0] + "/" + Enc(stack[1..])
  {
    if |stack| == 1 {
    } else {
      var init, last := stack[..|stack| - 1], stack[|stack| - 1];
      EncFront(init);
      assert init[1..] == stack[1..][..|stack| - 2];
      assert Enc(stack[1..]) == Enc(init[1..]) + last + "/";
      assert stack[0] + "/" + Enc(init[1..]) + last + "/" == stack[0] + "/" + (Enc(init[1..]) + last + "/");
    }
  }

  lemma {:induction false} JoinLast(stack: seq<string>, f: string)
    ensures Join(stack + [f]) == Enc(stack) + f
  {
    if stack == [] {
      assert stack + [f] == [f];
    } else {
      EncFront(stack);
      JoinLast(stack[1..], f);
      assert (stack + [f])[1..] == stack[1..] + [f];
    }
  }

  /** The final step of the machine: a trailing slash goes. */
  function Trim(out: string): string {
    if out != "" && out[|out| - 1] == '/' then out[..|out| - 1] else out
  }

  lemma EncLast(stack: seq<string>)
    ensures Enc(stack) ==
      if stack == [] then "" else Enc(stack[..|stack| - 1]) + stack[|stack| - 1] + "/"
  {
  }

  lemma JoinNothing()
    ensures Join([]) == ""
  {
  }

  lemma TrimSlash(s: string)
    ensures Trim(s + "/") == s && Trim("") == ""
  {
    assert (s + "/")[..|s|] == s;
  }

  lemma TrimEnc(stack: seq<string>)
    ensures Trim(Enc(stack)) == Join(stack)
  {
    hide Join, Trim, Enc;
    EncLast(stack);
    if stack == [] {
      JoinNothing();
      TrimSlash("");
    } else {
      var init, last := stack[..|stack| - 1], stack[|stack| - 1];
      JoinLast(init, last);
      assert init + [last] == stack;
      TrimSlash(Enc(init) + last);
    }
  }

  // ------------------------------------------------------------- the machine

  datatype State = Initial | FieldStart | InField | Sep | SeenSep | Dot | SeenDot | DotDot | SeenDotDot

  ghost predicate NoSlashes(stack: seq<string>) {
    forall f :: f in stack ==> '/' !in f
  }

  /**
   * s is the path, rest what is unread of it and out what is in the buffer.  stack holds
   * the fields emitted whole and cur the beginning of the field being copied.
   */
  ghost predicate Machine(state: State, s: string, rest: string, out: string, stack: seq<string>, cur: string) {
    && NoSlashes(stack) && '/' !in cur
    && match state
       case Initial => stack == [] && cur == "" && out == "" && rest == s
       case FieldStart => out == Enc(stack) && (rest == "" || rest[0] != '/') && Resolve(s) == Fold(stack, Split(rest))
       case SeenSep => out == Enc(stack) && Resolve(s) == Fold(stack, Split(rest))
       case InField =>
         && out == Enc(stack) + cur && Resolve(s) == Fold(stack, Split(cur + rest))
         && (Special(cur) ==> rest != "" && rest[0] != '/' && !Special(cur + [rest[0]]))
       case Sep =>
         && out == Enc(stack) + cur && rest != "" && rest[0] == '/'
         && Resolve(s) == Fold(stack + [cur], Split(rest[1..]))
       case Dot => out == Enc(stack) && rest != "" && rest[0] == '.' && Resolve(s) == Fold(stack, Split(rest))
       case SeenDot => out == Enc(stack) && Resolve(s) == Fold(stack, Split("." + rest))
       case DotDot => out == Enc(stack) && rest != "" && rest[0] == '.' && Resolve(s) == Fold(stack, Split("." + rest))
       case SeenDotDot => out == Enc(stack) && Resolve(s) == Fold(stack, Split(".." + rest))
  }

  /** Reading one more field. */
  lemma TakeField(stack: seq<string>, f: string, rest: string)
    requires '/' !in f
    ensures rest == "" ==> Fold(stack, Split(f + rest)) == Apply(stack, f)
    ensures rest != "" && rest[0] == '/' ==> Fold(stack, Split(f + rest)) == Fold(Apply(stack, f), Split(rest[1..]))
  {
    if rest == "" {
      SplitField(f);
      assert f + rest == f;
      assert Fold(stack, [f]) == Fold(Apply(stack, f), []);
    } else if rest[0] == '/' {
      SplitSlash(f, rest[1..]);
      assert f + rest == f + "/" + rest[1..];
      assert ([f] + Split(rest[1..]))[1..] == Split(rest[1..]);
    }
  }

  lemma StepInitial(s: string, rest: string, out: string, stack: seq<string>, cur: string)
    requires Machine(Initial, s, rest, out, stack, cur)
    ensures rest != "" && rest[0] == '/' ==> Machine(Sep, s, rest, out, stack, cur)
    ensures rest != "" && rest[0] == '.' ==> Machine(Dot, s, rest, out, stack, cur)
    ensures rest == "" || (rest[0] != '/' && rest[0] != '.') ==> Machine(FieldStart, s, rest, out, stack, cur)
  {
    if rest != "" && rest[0] == '/' {
      assert stack + [cur] == [""];
      assert Enc(stack) + cur == "";
    }
  }

  lemma StepFieldStart(s: string, rest: string, out: string, stack: seq<string>, cur: string)
    requires Machine(FieldStart, s, rest, out, stack, cur)
    ensures rest == "" ==> Trim(out) == Normal(s)
    ensures rest != "" && rest[0] == '.' ==> Machine(Dot, s, rest, out, stack, cur)
    ensures rest != "" && rest[0] != '.' ==> Machine(InField, s, rest, out, stack, "")
  {
    TrimEnc(stack);
    TakeField(stack, "", rest);
    assert "" + rest == rest;
    assert Enc(stack) + "" == Enc(stack);
    if rest != "" {
      assert "" + [rest[0]] == [rest[0]];
    }
  }

  lemma StepInField(s: string, rest: string, out: string, stack: seq<string>, cur: string)
    requires Machine(InField, s, rest, out, stack, cur)
    ensures rest == "" ==> Trim(out) == Normal(s)
    ensures rest != "" && rest[0] == '/' ==> Machine(Sep, s, rest, out, stack, cur)
    ensures rest != "" && rest[0] != '/' ==> Machine(InField, s, rest[1..], out + [rest[0]], stack, cur + [rest[0]])
  {
    TakeField(stack, cur, rest);
    if rest == "" {
      JoinLast(stack, cur);
      assert out[|out| - 1] == cur[|cur| - 1];
    }
    if rest != "" {
      assert cur + [rest[0]] + rest[1..] == cur + rest;
    }
  }

  lemma StepSep(s: string, rest: string, out: string, stack: seq<string>, cur: string)
    requires Machine(Sep, s, rest, out, stack, cur)
    ensures rest != "" && Machine(SeenSep, s, rest[1..], out + "/", stack + [cur], "")
  {
    assert (stack + [cur])[..|stack|] == stack;
  }

  lemma StepSeenSep(s: string, rest: string, out: string, stack: seq<string>, cur: string)
    requires Machine(SeenSep, s, rest, out, stack, cur)
    ensures rest == "" ==> Trim(out) == Normal(s)
    ensures rest != "" && rest[0] == '/' ==> Machine(SeenSep, s, rest[1..], out, stack, cur)
    ensures rest != "" && rest[0] != '/' ==> Machine(FieldStart, s, rest, out, stack, cur)
  {
    TrimEnc(stack);
    TakeField(stack, "", rest);
    assert "" + rest == rest;
  }

  lemma StepDots(s: string, rest: string, out: string, stack: seq<string>, cur: string)
    ensures Machine(Dot, s, rest, out, stack, cur) ==> rest != "" && Machine(SeenDot, s, rest[1..], out, stack, cur)
    ensures Machine(DotDot, s, rest, out, stack, cur) ==>
      rest != "" && Machine(SeenDotDot, s, rest[1..], out, stack, cur)
  {
    if rest != "" && rest[0] == '.' {
      assert "." + rest[1..] == rest;
      assert ".." + rest[1..] == "." + rest;
    }
  }

  lemma StepSeenDot(s: string, rest: string, out: string, stack: seq<string>, cur: string)
    requires Machine(SeenDot, s, rest, out, stack, cur)
    ensures rest == "" ==> Trim(out) == Normal(s)
    ensures rest != "" && rest[0] == '.' ==> Machine(DotDot, s, rest, out, stack, cur)
    ensures rest != "" && rest[0] == '/' ==> Machine(SeenSep, s, rest[1..], out, stack, cur)
    ensures rest != "" && rest[0] != '/' && rest[0] != '.' ==> Machine(InField, s, rest, out + ".", stack, ".")
  {
    TrimEnc(stack);
    TakeField(stack, ".", rest);
    if rest != "" {
      assert ("." + [rest[0]])[1] == rest[0];
    }
  }

  lemma StepSeenDotDot(s: string, rest: string, out: string, stack: seq<string>, cur: string)
    requires Machine(SeenDotDot, s, rest, out, stack, cur)
    ensures out == Enc(stack) && NoSlashes(stack)
    ensures rest == "" ==> Trim(Enc(Apply(stack, ".."))) == Normal(s)
    ensures rest != "" && rest[0] == '/' ==>
      Machine(SeenSep, s, rest[1..], Enc(Apply(stack, "..")), Apply(stack, ".."), cur)
    ensures rest != "" && rest[0] != '/' ==> Machine(InField, s, rest, out + "..", stack, "..")
  {
    TakeField(stack, "..", rest);
    TrimEnc(Apply(stack, ".."));
  }

  /** Where walking back over the last field has to stop. */
  lemma FieldBoundary(stack: seq<string>, p: nat)
    requires NoSlashes(stack) && stack != [] && |Enc(stack[..|stack| - 1])| <= p < |Enc(stack)|
    ensures p > 0 && Enc(stack)[p - 1] == '/' ==> p == |Enc(stack[..|stack| - 1])|
    ensures p == |Enc(stack[..|stack| - 1])| > 0 ==> Enc(stack)[p - 1] == '/'
  {
    var init, last := stack[..|stack| - 1], stack[|stack| - 1];
    assert last in stack;
    assert Enc(stack) == Enc(init) + last + "/";
    if p > |Enc(init)| {
      assert Enc(stack)[p - 1] == last[p - 1 - |Enc(init)|];
    }
  }

  lemma Start(s: string)
    ensures Machine(Initial, s, s[0..], "", [], "")
  {
  }

  predicate NoNul(fields: seq<string>) {
    forall f :: f in fields ==> NUL !in f
  }

  lemma {:induction false} SplitNoNul(s: string)
    requires NUL !in s
    ensures NoNul(Split(s))
  {
    if s == "" {
    } else {
      SplitNoNul(s[1..]);
      var r := Split(s[1..]);
      assert r[0] in r;
    }
  }

  lemma {:induction false} FoldNoNul(stack: seq<string>, fields: seq<string>)
    requires NoNul(stack) && NoNul(fields)
    ensures NoNul(Fold(stack, fields))
    decreases |fields|
  {
    if fields == [] {
    } else {
      assert fields[0] in fields;
      FoldNoNul(Apply(stack, fields[0]), fields[1..]);
    }
  }

  lemma {:induction false} JoinNoNul(fields: seq<string>)
    requires NoNul(fields)
    ensures NUL !in Join(fields)
  {
    if fields == [] {
    } else {
      assert fields[0] in fields;
      JoinNoNul(fields[1..]);
    }
  }

  lemma NormalNoNul(s: string)
    requires NUL !in s
    ensures NUL !in Normal(s)
  {
    if s != "" && s[0] == '/' {
      SplitNoNul(s[1..]);
      FoldNoNul([""], Split(s[1..]));
    } else {
      SplitNoNul(s);
      FoldNoNul([], Split(s));
    }
    JoinNoNul(Resolve(s));
  }

  function Rank(state: State): nat {
    match state
    case Initial => 4
    case SeenSep => 3
    case SeenDot => 3
    case SeenDotDot => 3
    case FieldStart => 2
    case InField => 1
    case _ => 0
  }

  /** path[outpos++] = c. */
  method Emit(path: array<char>, outpos: nat, c: char) returns (p: nat)
    requires outpos < path.Length
    modifies path
    ensures p == outpos + 1 && path[..] == old(path[..])[outpos := c]
  {
    path[outpos] := c;
    p := outpos + 1;
  }

  lemma {:induction false} NulAfter(was: seq<char>)
    requires NUL in was
    ensures |CString(was)| < |was|
  {
    if was[0] == NUL {
    } else {
      NulAfter(was[1..]);
    }
  }

  /** The character the machine looks at, and what is unread after it. */
  lemma Look(was: seq<char>, pos: nat)
    requires NUL in was && pos <= |CString(was)|
    ensures var s := CString(was); |s| < |was| && (was[pos] == NUL <==> s[pos..] == "")
    ensures var s := CString(was); pos < |s| ==> s[pos..][0] == was[pos] && s[pos..][1..] == s[pos + 1..]
  {
    var s := CString(was);
    NulAfter(was);
    if pos < |s| {
      assert s[pos] == was[pos] && s[pos] in s;
    }
  }

  /** The backward walk over the last field in the buffer, if there is one. */
  method PopField(path: array<char>, outpos: nat, ghost stack: seq<string>) returns (p: nat)
    requires outpos <= path.Length && NoSlashes(stack) && path[..outpos] == Enc(stack)
    ensures p <= outpos && path[..p] == Enc(Apply(stack, ".."))
  {
    p := outpos;
    if p > 0 {
      ghost var init := stack[..|stack| - 1];
      p := p - 1;
      while p > 0
        invariant |Enc(init)| <= p < outpos
      {
        FieldBoundary(stack, p);
        if path[p - 1] == '/' {
          break;
        }
        p := p - 1;
      }
      assert p == |Enc(init)| && Enc(init) <= Enc(stack);
    }
  }

  /** The end of the rewriting: drop a trailing slash and write the terminator. */
  method Terminate(path: array<char>, outpos: nat)
    requires outpos < path.Length && NUL !in Trim(path[..outpos])
    modifies path
    ensures CString(path[..]) == Trim(old(path[..outpos]))
    ensures forall k :: outpos < k < path.Length ==> path[k] == old(path[k])
  {
    ghost var r := Trim(path[..outpos]);
    var end := outpos;
    if end > 0 && path[end - 1] == '/' {
      end := end - 1;
    }
    assert path[..end] == r;
    path[end] := NUL;
    assert path[..end] == r;
    CStringIs(path[..], r);
  }

  /** How far the write index at least trails the read index. */
  function Lag(state: State): nat {
    match state
    case SeenDot => 1
    case DotDot => 1
    case SeenDotDot => 2
    case _ => 0
  }

  // ------------------------------------------------------------- one step in the buffer

  /**
   * The buffer p, which was was at first, with the machine in this state: the rewritten part
   * ends at outpos and the unread one starts at pos.
   */
  ghost predicate At(p: seq<char>, was: seq<char>, state: State, pos: nat, outpos: nat, stack: seq<string>, cur: string)
    requires NUL in was
  {
    var s := CString(was);
    && |p| == |was| && pos <= |s| < |was| && outpos + Lag(state) <= pos && p[pos..] == was[pos..]
    && Machine(state, s, s[pos..], p[..outpos], stack, cur)
  }

  /** The machine has stopped. */
  ghost predicate Rewritten(p: seq<char>, was: seq<char>, outpos: nat)
    requires NUL in was
  {
    var s := CString(was);
    && |p| == |was| && outpos <= |s| < |was| && p[|s| + 1..] == was[|s| + 1..]
    && Trim(p[..outpos]) == Normal(s)
  }

  lemma AtStart(was: seq<char>)
    requires NUL in was
    ensures At(was, was, Initial, 0, 0, [], "")
  {
    hide Machine, CString;
    NulAfter(was);
    Start(CString(was));
    assert was[..0] == "";
  }

  /** The character the machine looks at. */
  lemma Seen(p: seq<char>, was: seq<char>, state: State, pos: nat, outpos: nat, stack: seq<string>, cur: string)
    requires NUL in was && At(p, was, state, pos, outpos, stack, cur)
    ensures outpos + Lag(state) <= pos <= |CString(was)| < |p| == |was|
    ensures var rest := CString(was)[pos..];
      && (p[pos] == NUL <==> rest == "")
      && (rest != "" ==> rest[0] == p[pos] && rest[1..] == CString(was)[pos + 1..])
  {
    hide Machine, CString;
    Look(was, pos);
    assert p[pos] == p[pos..][0] == was[pos..][0];
  }

  /** The same buffer, with the machine in another state. */
  lemma Moved(p: seq<char>, was: seq<char>, state: State, pos: nat, outpos: nat, stack: seq<string>, cur: string,
              state': State, pos': nat, outpos': nat, stack': seq<string>, cur': string)
    requires NUL in was && At(p, was, state, pos, outpos, stack, cur)
    requires pos <= pos' <= |CString(was)| && outpos' <= |p| && outpos' + Lag(state') <= pos'
    requires Machine(state', CString(was), CString(was)[pos'..], p[..outpos'], stack', cur')
    ensures At(p, was, state', pos', outpos', stack', cur')
  {
    hide Machine, CString, Lag;
    assert p[pos..][pos' - pos..] == p[pos'..] && was[pos..][pos' - pos..] == was[pos'..];
  }

  lemma Ended(p: seq<char>, was: seq<char>, state: State, pos: nat, outpos: nat, stack: seq<string>, cur: string,
              end: nat)
    requires NUL in was && At(p, was, state, pos, outpos, stack, cur)
    requires end <= outpos && Trim(p[..end]) == Normal(CString(was))
    ensures Rewritten(p, was, end)
  {
    hide Machine, CString, Trim, Normal;
    var n := |CString(was)|;
    assert p[pos..][n + 1 - pos..] == p[n + 1..] && was[pos..][n + 1 - pos..] == was[n + 1..];
  }

  /** A character stored behind the rewritten part, in front of what is unread. */
  lemma Grown(p: seq<char>, was: seq<char>, state: State, pos: nat, outpos: nat, stack: seq<string>, cur: string,
              c: char, state': State, pos': nat, stack': seq<string>, cur': string)
    requires NUL in was && At(p, was, state, pos, outpos, stack, cur)
    requires pos <= pos' <= |CString(was)| && outpos < pos' && outpos + 1 + Lag(state') <= pos'
    requires Machine(state', CString(was), CString(was)[pos'..], p[..outpos] + [c], stack', cur')
    ensures At(p[outpos := c], was, state', pos', outpos + 1, stack', cur')
  {
    hide Machine, CString, Lag;
    var q := p[outpos := c];
    assert q[..outpos + 1] == p[..outpos] + [c];
    assert q[pos'..] == p[pos'..];
    assert p[pos..][pos' - pos..] == p[pos'..] && was[pos..][pos' - pos..] == was[pos'..];
  }

  lemma AtInitial(p: seq<char>, was: seq<char>, pos: nat, outpos: nat, stack: seq<string>, cur: string)
    requires NUL in was && At(p, was, Initial, pos, outpos, stack, cur) && pos < |p|
    ensures At(p, was, if p[pos] == '/' then Sep else if p[pos] == '.' then Dot else FieldStart, pos, outpos, stack, cur)
  {
    hide Machine, CString;
    Seen(p, was, Initial, pos, outpos, stack, cur);
    StepInitial(CString(was), CString(was)[pos..], p[..outpos], stack, cur);
  }

  lemma AtFieldStart(p: seq<char>, was: seq<char>, pos: nat, outpos: nat, stack: seq<string>, cur: string)
    requires NUL in was && At(p, was, FieldStart, pos, outpos, stack, cur) && pos < |p|
    ensures p[pos] == '.' ==> At(p, was, Dot, pos, outpos, stack, cur)
    ensures p[pos] == NUL ==> Rewritten(p, was, outpos)
    ensures p[pos] != '.' && p[pos] != NUL ==> At(p, was, InField, pos, outpos, stack, "")
  {
    hide Machine, CString, Trim, Normal;
    Seen(p, was, FieldStart, pos, outpos, stack, cur);
    StepFieldStart(CString(was), CString(was)[pos..], p[..outpos], stack, cur);
    if p[pos] == NUL {
      Ended(p, was, FieldStart, pos, outpos, stack, cur, outpos);
    }
  }

  lemma AtInField(p: seq<char>, was: seq<char>, pos: nat, outpos: nat, stack: seq<string>, cur: string)
    requires NUL in was && At(p, was, InField, pos, outpos, stack, cur) && pos < |p|
    ensures outpos < |p|
    ensures p[pos] == '/' ==> At(p, was, Sep, pos, outpos, stack, cur)
    ensures p[pos] == NUL ==> Rewritten(p, was, outpos)
    ensures p[pos] != '/' && p[pos] != NUL ==>
      At(p[outpos := p[pos]], was, InField, pos + 1, outpos + 1, stack, cur + [p[pos]])
  {
    hide Machine, CString, Trim, Normal;
    Seen(p, was, InField, pos, outpos, stack, cur);
    StepInField(CString(was), CString(was)[pos..], p[..outpos], stack, cur);
    if p[pos] == NUL {
      Ended(p, was, InField, pos, outpos, stack, cur, outpos);
    } else if p[pos] != '/' {
      Grown(p, was, InField, pos, outpos, stack, cur, p[pos], InField, pos + 1, stack, cur + [p[pos]]);
    }
  }

  lemma AtSep(p: seq<char>, was: seq<char>, pos: nat, outpos: nat, stack: seq<string>, cur: string)
    requires NUL in was && At(p, was, Sep, pos, outpos, stack, cur)
    ensures outpos < |p| && At(p[outpos := '/'], was, SeenSep, pos + 1, outpos + 1, stack + [cur], "")
  {
    hide Machine, CString;
    Seen(p, was, Sep, pos, outpos, stack, cur);
    StepSep(CString(was), CString(was)[pos..], p[..outpos], stack, cur);
    Grown(p, was, Sep, pos, outpos, stack, cur, '/', SeenSep, pos + 1, stack + [cur], "");
  }

  lemma AtSeenSep(p: seq<char>, was: seq<char>, pos: nat, outpos: nat, stack: seq<string>, cur: string)
    requires NUL in was && At(p, was, SeenSep, pos, outpos, stack, cur) && pos < |p|
    ensures p[pos] == '/' ==> At(p, was, SeenSep, pos + 1, outpos, stack, cur)
    ensures p[pos] == NUL ==> Rewritten(p, was, outpos)
    ensures p[pos] != '/' && p[pos] != NUL ==> At(p, was, FieldStart, pos, outpos, stack, cur)
  {
    hide Machine, CString, Trim, Normal;
    Seen(p, was, SeenSep, pos, outpos, stack, cur);
    StepSeenSep(CString(was), CString(was)[pos..], p[..outpos], stack, cur);
    if p[pos] == NUL {
      Ended(p, was, SeenSep, pos, outpos, stack, cur, outpos);
    } else if p[pos] == '/' {
      Moved(p, was, SeenSep, pos, outpos, stack, cur, SeenSep, pos + 1, outpos, stack, cur);
    }
  }

  lemma AtDots(p: seq<char>, was: seq<char>, state: State, pos: nat, outpos: nat, stack: seq<string>, cur: string)
    requires NUL in was && (state.Dot? || state.DotDot?) && At(p, was, state, pos, outpos, stack, cur)
    ensures At(p, was, if state.Dot? then SeenDot else SeenDotDot, pos + 1, outpos, stack, cur)
  {
    hide Machine, CString;
    Seen(p, was, state, pos, outpos, stack, cur);
    StepDots(CString(was), CString(was)[pos..], p[..outpos], stack, cur);
    Moved(p, was, state, pos, outpos, stack, cur, if state.Dot? then SeenDot else SeenDotDot, pos + 1, outpos, stack, cur);
  }

  lemma AtSeenDot(p: seq<char>, was: seq<char>, pos: nat, outpos: nat, stack: seq<string>, cur: string)
    requires NUL in was && At(p, was, SeenDot, pos, outpos, stack, cur) && pos < |p|
    ensures outpos < |p|
    ensures p[pos] == '.' ==> At(p, was, DotDot, pos, outpos, stack, cur)
    ensures p[pos] == '/' ==> At(p, was, SeenSep, pos + 1, outpos, stack, cur)
    ensures p[pos] == NUL ==> Rewritten(p, was, outpos)
    ensures p[pos] != '.' && p[pos] != '/' && p[pos] != NUL ==>
      At(p[outpos := '.'], was, InField, pos, outpos + 1, stack, ".")
  {
    hide Machine, CString, Trim, Normal;
    Seen(p, was, SeenDot, pos, outpos, stack, cur);
    StepSeenDot(CString(was), CString(was)[pos..], p[..outpos], stack, cur);
    if p[pos] == NUL {
      Ended(p, was, SeenDot, pos, outpos, stack, cur, outpos);
    } else if p[pos] == '/' {
      Moved(p, was, SeenDot, pos, outpos, stack, cur, SeenSep, pos + 1, outpos, stack, cur);
    } else if p[pos] != '.' {
      Grown(p, was, SeenDot, pos, outpos, stack, cur, '.', InField, pos, stack, ".");
    }
  }

  /** A field of two dots, once the last field before it has been walked over to end. */
  lemma AtField(p: seq<char>, was: seq<char>, pos: nat, outpos: nat, stack: seq<string>, cur: string, end: nat)
    requires NUL in was && At(p, was, SeenDotDot, pos, outpos, stack, cur) && pos < |p|
    requires end <= outpos && p[..end] == Enc(Apply(stack, ".."))
    ensures p[pos] == '/' ==> At(p, was, SeenSep, pos + 1, end, Apply(stack, ".."), cur)
    ensures p[pos] == NUL ==> Rewritten(p, was, end)
  {
    hide Machine, CString, Trim, Normal, Enc, Apply;
    Seen(p, was, SeenDotDot, pos, outpos, stack, cur);
    StepSeenDotDot(CString(was), CString(was)[pos..], p[..outpos], stack, cur);
    if p[pos] == NUL {
      Ended(p, was, SeenDotDot, pos, outpos, stack, cur, end);
    } else if p[pos] == '/' {
      Moved(p, was, SeenDotDot, pos, outpos, stack, cur, SeenSep, pos + 1, end, Apply(stack, ".."), cur);
    }
  }

  lemma AtSeenDotDot(p: seq<char>, was: seq<char>, pos: nat, outpos: nat, stack: seq<string>, cur: string)
    requires NUL in was && At(p, was, SeenDotDot, pos, outpos, stack, cur) && pos < |p|
    ensures outpos + 1 < |p| && NoSlashes(stack) && p[..outpos] == Enc(stack)
    ensures p[pos] != '/' && p[pos] != NUL ==>
      At(p[outpos := '.'][outpos + 1 := '.'], was, InField, pos, outpos + 2, stack, "..")
  {
    hide Machine, CString, Enc, Apply, NoSlashes;
    Seen(p, was, SeenDotDot, pos, outpos, stack, cur);
    StepSeenDotDot(CString(was), CString(was)[pos..], p[..outpos], stack, cur);
    if p[pos] != '/' && p[pos] != NUL {
      var q := p[outpos := '.'][outpos + 1 := '.'];
      assert q[..outpos + 2] == p[..outpos] + "..";
      assert q[pos..] == p[pos..];
    }
  }

  /** fs_normalize_path. */
  method NormalizePath(path: array<char>)
    requires NUL in path[..]
    modifies path
    ensures CString(path[..]) == Normal(CString(old(path[..])))
    ensures var n := |CString(old(path[..]))|; n < path.Length && path[n + 1..] == old(path[n + 1..])
  {
    hide CString, At, Rewritten, Trim, Normal, Enc, Apply, NoSlashes;
    ghost var was := path[..];
    ghost var stack: seq<string> := [];
    ghost var cur := "";
    AtStart(was);
    var state := Initial;
    var pos := 0;
    var outpos := 0;
    var done := false;
    while !done
      invariant 0 <= outpos && 0 <= pos
      invariant !done ==> At(path[..], was, state, pos, outpos, stack, cur)
      invariant done ==> Rewritten(path[..], was, outpos)
      decreases if done then 0 else 1, |was| - pos, Rank(state)
    {
      Seen(path[..], was, state, pos, outpos, stack, cur);
      var c := path[pos];
      match state {
        case Initial =>
          AtInitial(path[..], was, pos, outpos, stack, cur);
          if c == '/' {
            state := Sep;
          } else if c == '.' {
            state := Dot;
          } else {
            state := FieldStart;
          }
        case FieldStart =>
          AtFieldStart(path[..], was, pos, outpos, stack, cur);
          if c == '.' {
            state := Dot;
          } else if c == NUL {
            done := true;
          } else {
            cur := "";
            state := InField;
          }
        case InField =>
          AtInField(path[..], was, pos, outpos, stack, cur);
          if c == '/' {
            state := Sep;
          } else if c == NUL {
            done := true;
          } else {
            outpos := Emit(path, outpos, c);
            cur := cur + [c];
            pos := pos + 1;
          }
        case Sep =>
          AtSep(path[..], was, pos, outpos, stack, cur);
          pos := pos + 1;
          outpos := Emit(path, outpos, '/');
          stack, cur := stack + [cur], "";
          state := SeenSep;
        case SeenSep =>
          AtSeenSep(path[..], was, pos, outpos, stack, cur);
          if c == '/' {
            pos := pos + 1;
          } else if c == NUL {
            done := true;
          } else {
            state := FieldStart;
          }
        case Dot =>
          AtDots(path[..], was, state, pos, outpos, stack, cur);
          pos := pos + 1;
          state := SeenDot;
        case SeenDot =>
          AtSeenDot(path[..], was, pos, outpos, stack, cur);
          if c == '.' {
            state := DotDot;
          } else if c == '/' {
            pos := pos + 1;
            state := SeenSep;
          } else if c == NUL {
            done := true;
          } else {
            outpos := Emit(path, outpos, '.');
            cur := ".";
            state := InField;
          }
        case DotDot =>
          AtDots(path[..], was, state, pos, outpos, stack, cur);
          pos := pos + 1;
          state := SeenDotDot;
        case SeenDotDot =>
          AtSeenDotDot(path[..], was, pos, outpos, stack, cur);
          if c == '/' || c == NUL {
            ghost var from := outpos;
            outpos := PopField(path, outpos, stack);
            AtField(path[..], was, pos, from, stack, cur, outpos);
            stack := Apply(stack, "..");
            pos := pos + 1;
            state := SeenSep;
            if c == NUL {
              done := true;
            }
          } else {
            outpos := Emit(path, outpos, '.');
            outpos := Emit(path, outpos, '.');
            cur := "..";
            state := InField;
          }
      }
    }
    Finished(path[..], was, outpos);
    Terminate(path, outpos);
  }

  lemma Finished(p: seq<char>, was: seq<char>, outpos: nat)
    requires NUL in was && Rewritten(p, was, outpos)
    ensures |p| == |was| && outpos <= |CString(was)| < |p| && p[|CString(was)| + 1..] == was[|CString(was)| + 1..]
    ensures Trim(p[..outpos]) == Normal(CString(was)) && NUL !in Trim(p[..outpos])
  {
    hide Trim, Normal;
    NormalNoNul(CString(was));
  }
}

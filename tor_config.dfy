/**
 * `remove_tor_passwords` (main.py): drop from a `torrc` file every line that,
 * once trimmed, starts with `HashedControlPassword` or `ControlPort`, and keep
 * every other line as it was, in order. Lines carry their own line endings.
 */
module TorConfig {
  import opened Text

  /** A line the filter removes. */
  predicate IsControlLine(line: string)
  {
    StartsWith(Strip(line), "HashedControlPassword") || StartsWith(Strip(line), "ControlPort")
  }

  /** The lines for which `drop` does not hold, in order: the reference for the
      loop, built from the end. The lemmas below hold for any `drop`, in
      particular for `IsControlLine`. */
  function Kept(lines: seq<string>, drop: string -> bool): seq<string>
    decreases |lines|
  {
    if lines == [] then []
    else Kept(lines[..|lines| - 1], drop) + (if drop(lines[|lines| - 1]) then [] else [lines[|lines| - 1]])
  }

  /** The loop that builds `new_lines`. */
  method RemoveTorPasswords(lines: seq<string>) returns (newLines: seq<string>)
    ensures newLines == Kept(lines, IsControlLine)
  {
    newLines := [];
    for i := 0 to |lines|
      invariant newLines == Kept(lines[..i], IsControlLine)
    {
      var line := lines[i];
      var control := IsControlLine(line);
      if !control {
        newLines := newLines + [line];
      }
      assert lines[..i + 1][..i] == lines[..i];
    }
    assert lines[..|lines|] == lines;
  }

  /** Filtering a concatenation filters each part: the kept lines stay in their order. */
  lemma {:induction false} KeptConcat(a: seq<string>, b: seq<string>, drop: string -> bool)
    ensures Kept(a + b, drop) == Kept(a, drop) + Kept(b, drop)
    decreases |b|
  {
    if b != [] {
      var b' := b[..|b| - 1];
      var last := b[|b| - 1];
      KeptConcat(a, b', drop);
      assert (a + b)[..|a + b| - 1] == a + b';
      assert (a + b)[|a + b| - 1] == last;
      var tail := if drop(last) then [] else [last];
      assert Kept(a + b, drop) == Kept(a + b', drop) + tail;
      assert Kept(b, drop) == Kept(b', drop) + tail;
      assert Kept(a, drop) + Kept(b', drop) + tail == Kept(a, drop) + (Kept(b', drop) + tail);
    } else {
      assert a + b == a;
    }
  }

  /** A line is kept exactly when it is in the file and is not dropped. */
  lemma {:induction false} KeptExactly(lines: seq<string>, drop: string -> bool)
    ensures forall line :: line in Kept(lines, drop) <==> line in lines && !drop(line)
    decreases |lines|
  {
    if lines != [] {
      var init := lines[..|lines| - 1];
      KeptExactly(init, drop);
      assert lines == init + [lines[|lines| - 1]];
    }
  }

  /** Filtering twice is filtering once. */
  lemma {:induction false} KeptIdempotent(lines: seq<string>, drop: string -> bool)
    ensures Kept(Kept(lines, drop), drop) == Kept(lines, drop)
    decreases |lines|
  {
    if lines != [] {
      var init := lines[..|lines| - 1];
      var last := lines[|lines| - 1];
      KeptIdempotent(init, drop);
      var tail := if drop(last) then [] else [last];
      KeptConcat(Kept(init, drop), tail, drop);
      if !drop(last) {
        assert Kept(tail, drop) == Kept([], drop) + [last] by {
          assert tail[..0] == [];
        }
      }
    }
  }

  /** A file with nothing to drop is left untouched, and the output has nothing to drop. */
  lemma NothingToRemove(lines: seq<string>, drop: string -> bool)
    ensures (forall i :: 0 <= i < |lines| ==> !drop(lines[i])) ==> Kept(lines, drop) == lines
    ensures forall i :: 0 <= i < |Kept(lines, drop)| ==> !drop(Kept(lines, drop)[i])
  {
    KeptExactly(lines, drop);
    if forall i :: 0 <= i < |lines| ==> !drop(lines[i]) {
      AllKept(lines, drop);
    }
  }

  lemma {:induction false} AllKept(lines: seq<string>, drop: string -> bool)
    requires forall i :: 0 <= i < |lines| ==> !drop(lines[i])
    ensures Kept(lines, drop) == lines
    decreases |lines|
  {
    if lines != [] {
      var init := lines[..|lines| - 1];
      assert forall i :: 0 <= i < |init| ==> init[i] == lines[i];
      AllKept(init, drop);
      assert init + [lines[|lines| - 1]] == lines;
    }
  }
}

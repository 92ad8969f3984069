/**
 * The JavaScript idiom the code-entry form uses to edit its code string:
 *
 *     let a = code.split(""); a[index] = value; code = a.join("");
 *
 * A JavaScript array grows when an index past its end is assigned, and the
 * slots in between are holes; `join("")` writes a hole as the empty string.
 * Writing "" into a slot therefore deletes a character, and writing past the
 * end appends. `SetAt` is the closed form of the idiom, and `SetAtIdiom`
 * proves it equal to the array-level model `Join(Assign(Split(s), i, v))`.
 */
module SplitJoin {
  import opened Wrappers

  /** A JavaScript array of strings; `None` is a hole (a slot never assigned). */
  type Slots = seq<Option<string>>

  /** `s.split("")`: one one-character slot per character, no holes. */
  function Split(s: string): (a: Slots)
    ensures |a| == |s|
    ensures forall k :: 0 <= k < |a| ==> a[k].Some? && |a[k].value| == 1
  {
    seq(|s|, k requires 0 <= k < |s| => Some([s[k]]))
  }

  /** What one slot contributes to `join("")`. */
  function SlotText(x: Option<string>): string
  {
    match x
    case None => ""
    case Some(t) => t
  }

  /** `a.join("")`. Joining slots of at most one character each never gives
      more characters than there are slots. */
  function Join(a: Slots): (r: string)
    ensures (forall k :: 0 <= k < |a| ==> |SlotText(a[k])| <= 1) ==> |r| <= |a|
  {
    if a == [] then "" else SlotText(a[0]) + Join(a[1..])
  }

  /** `n` consecutive holes. */
  function Holes(n: nat): Slots
  {
    seq(n, _ => None)
  }

  /** `a[i] = v`: replaces slot `i` when it exists; otherwise the array grows
      to length `i + 1` and the slots between the old end and `i` are holes. */
  function Assign(a: Slots, i: nat, v: string): (r: Slots)
    ensures |r| == if i < |a| then |a| else i + 1
    ensures r[i] == Some(v)
    ensures forall k :: 0 <= k < |a| && k != i ==> r[k] == a[k]
    ensures forall k :: |a| <= k < i ==> r[k] == None
  {
    if i < |a| then a[i := Some(v)] else a + Holes(i - |a|) + [Some(v)]
  }

  /** The code string after `a = s.split(""); a[i] = v; a.join("")`. */
  function SetAt(s: string, i: nat, v: string): (r: string)
    ensures r == Join(Assign(Split(s), i, v))
  {
    SetAtIdiom(s, i, v);
    if i < |s| then s[..i] + v + s[i + 1..] else s + v
  }

  lemma {:induction false} JoinAppend(a: Slots, b: Slots)
    ensures Join(a + b) == Join(a) + Join(b)
  {
    if a == [] {
      assert a + b == b;
    } else {
      assert (a + b)[1..] == a[1..] + b;
      JoinAppend(a[1..], b);
    }
  }

  /** Splitting a string and joining it back gives the string. */
  lemma {:induction false} JoinSplit(s: string)
    ensures Join(Split(s)) == s
  {
    if s != [] {
      assert Split(s)[1..] == Split(s[1..]);
      JoinSplit(s[1..]);
      assert [s[0]] + s[1..] == s;
    }
  }

  /** Holes join to nothing. */
  lemma {:induction false} JoinHoles(n: nat)
    ensures Join(Holes(n)) == ""
  {
    if n > 0 {
      assert Holes(n)[1..] == Holes(n - 1);
      JoinHoles(n - 1);
    }
  }

  /** A single slot holding `v` joins to `v`. */
  lemma JoinOne(v: string)
    ensures Join([Some(v)]) == v
  {
    var one: Slots := [Some(v)];
    assert one[1..] == [];
  }

  /** Assigning inside the string replaces one character by `v`. */
  lemma AssignInside(s: string, i: nat, v: string)
    requires i < |s|
    ensures Join(Assign(Split(s), i, v)) == s[..i] + v + s[i + 1..]
  {
    var one: Slots := [Some(v)];
    assert Assign(Split(s), i, v) == Split(s[..i]) + one + Split(s[i + 1..]);
    calc {
      Join(Split(s[..i]) + one + Split(s[i + 1..]));
      { JoinAppend(Split(s[..i]) + one, Split(s[i + 1..])); }
      Join(Split(s[..i]) + one) + Join(Split(s[i + 1..]));
      { JoinAppend(Split(s[..i]), one); }
      Join(Split(s[..i])) + Join(one) + Join(Split(s[i + 1..]));
      { JoinSplit(s[..i]); JoinOne(v); JoinSplit(s[i + 1..]); }
      s[..i] + v + s[i + 1..];
    }
  }

  /** Assigning at or past the end appends `v`: the holes vanish in the join. */
  lemma AssignPastEnd(s: string, i: nat, v: string)
    requires |s| <= i
    ensures Join(Assign(Split(s), i, v)) == s + v
  {
    var one: Slots := [Some(v)];
    var gap := Holes(i - |s|);
    calc {
      Join(Assign(Split(s), i, v));
      Join(Split(s) + gap + one);
      { JoinAppend(Split(s) + gap, one); }
      Join(Split(s) + gap) + Join(one);
      { JoinAppend(Split(s), gap); }
      Join(Split(s)) + Join(gap) + Join(one);
      { JoinSplit(s); JoinHoles(i - |s|); JoinOne(v); }
      s + "" + v;
    }
    assert s + "" == s;
  }

  /** The array-level idiom equals its closed form: replace-or-delete in range,
      append past the end. */
  lemma SetAtIdiom(s: string, i: nat, v: string)
    ensures Join(Assign(Split(s), i, v)) == if i < |s| then s[..i] + v + s[i + 1..] else s + v
  {
    if i < |s| {
      AssignInside(s, i, v);
    } else {
      AssignPastEnd(s, i, v);
    }
  }
}

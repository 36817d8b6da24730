/**
 * The style-preferences screen: favourite colours (at most three) and
 * favourite styles (no limit), each toggled on and off by a tap.
 */
module EditStyle {

  /** The cap on favourite colours. */
  const MaxColors: nat := 3

  /** `list.filter(x => x !== v)`: every occurrence of `v` goes, the rest keep their order. */
  function Without(s: seq<string>, v: string): (r: seq<string>)
    ensures v !in r
    ensures forall x :: x in r ==> x in s
    ensures forall x :: x in s && x != v ==> x in r
    ensures |r| <= |s|
  {
    if s == [] then []
    else (if s[0] == v then [] else [s[0]]) + Without(s[1..], v)
  }

  /**
   * `toggleColor`: a selected colour is removed; an unselected one is
   * appended only while fewer than three are selected.
   */
  function ToggleColor(selected: seq<string>, color: string): (r: seq<string>)
    ensures color in r <==> color !in selected && |selected| < MaxColors
    ensures forall c :: c != color ==> (c in r <==> c in selected)
    ensures |selected| <= MaxColors ==> |r| <= MaxColors
  {
    if color in selected then Without(selected, color)
    else if |selected| < MaxColors then selected + [color]
    else selected
  }

  /** `toggleStyle`: the style's membership flips, with no cap. */
  function ToggleStyle(selected: seq<string>, style: string): (r: seq<string>)
    ensures style in r <==> style !in selected
    ensures forall s :: s != style ==> (s in r <==> s in selected)
  {
    if style in selected then Without(selected, style) else selected + [style]
  }

  /**
   * An unselected colour goes to the end of the list while there is room;
   * with three selected the list stays exactly as it was.
   */
  lemma ColorToggleUnselected(selected: seq<string>, color: string)
    requires color !in selected
    ensures |selected| < MaxColors ==> ToggleColor(selected, color) == selected + [color]
    ensures |selected| >= MaxColors ==> ToggleColor(selected, color) == selected
  {
  }

  /** A selected colour is filtered out, every other entry keeping its place in order. */
  lemma ColorToggleSelected(selected: seq<string>, color: string, i: nat)
    requires i <= |selected| && color in selected
    ensures ToggleColor(selected, color) == Without(selected[..i], color) + Without(selected[i..], color)
  {
    WithoutConcat(selected[..i], selected[i..], color);
    assert selected[..i] + selected[i..] == selected;
  }

  ghost predicate NoDuplicates(s: seq<string>) {
    forall i, j :: 0 <= i < j < |s| ==> s[i] != s[j]
  }

  /** Filtering distributes over concatenation, so the kept entries stay in order. */
  lemma {:induction false} WithoutConcat(a: seq<string>, b: seq<string>, v: string)
    ensures Without(a + b, v) == Without(a, v) + Without(b, v)
  {
    if a == [] {
      assert a + b == b;
    } else {
      var head := if a[0] == v then [] else [a[0]];
      var ab := a + b;
      assert ab[0] == a[0] && ab[1..] == a[1..] + b;
      WithoutConcat(a[1..], b, v);
      calc {
        Without(ab, v);
        head + Without(a[1..] + b, v);
        head + (Without(a[1..], v) + Without(b, v));
        (head + Without(a[1..], v)) + Without(b, v);
        Without(a, v) + Without(b, v);
      }
    }
  }

  /** Filtering out a value that is not there changes nothing. */
  lemma {:induction false} WithoutAbsent(s: seq<string>, v: string)
    requires v !in s
    ensures Without(s, v) == s
  {
    if s != [] {
      WithoutAbsent(s[1..], v);
      assert s == [s[0]] + s[1..];
    }
  }

  /** Filtering keeps a duplicate-free list duplicate-free. */
  lemma {:induction false} WithoutNoDuplicates(s: seq<string>, v: string)
    requires NoDuplicates(s)
    ensures NoDuplicates(Without(s, v))
  {
    if s != [] {
      var rest := Without(s[1..], v);
      assert NoDuplicates(s[1..]);
      WithoutNoDuplicates(s[1..], v);
      if s[0] != v {
        assert s[0] !in s[1..];
        assert Without(s, v) == [s[0]] + rest;
      }
    }
  }

  /** Neither toggle introduces a duplicate into a duplicate-free list. */
  lemma TogglesKeepNoDuplicates(selected: seq<string>, x: string)
    requires NoDuplicates(selected)
    ensures NoDuplicates(ToggleColor(selected, x))
    ensures NoDuplicates(ToggleStyle(selected, x))
  {
    if x in selected {
      WithoutNoDuplicates(selected, x);
    }
  }

  /** Toggling an absent style twice gives back the original list. */
  lemma StyleToggleTwice(selected: seq<string>, style: string)
    requires style !in selected
    ensures ToggleStyle(ToggleStyle(selected, style), style) == selected
  {
    WithoutConcat(selected, [style], style);
    WithoutAbsent(selected, style);
    assert Without([style], style) == [];
  }

  /** The colour list after a sequence of taps. */
  function ApplyColorToggles(selected: seq<string>, taps: seq<string>): seq<string>
    decreases taps
  {
    if taps == [] then selected else ApplyColorToggles(ToggleColor(selected, taps[0]), taps[1..])
  }

  /** Starting from at most three colours, no sequence of taps gets past three. */
  lemma {:induction false} ColorTogglesStayCapped(selected: seq<string>, taps: seq<string>)
    requires |selected| <= MaxColors
    ensures |ApplyColorToggles(selected, taps)| <= MaxColors
    decreases taps
  {
    if taps != [] {
      ColorTogglesStayCapped(ToggleColor(selected, taps[0]), taps[1..]);
    }
  }
}

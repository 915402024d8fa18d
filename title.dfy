/**
 * The title placed in the top border of a panel: the title centred in the
 * usable width, with one space against each border.
 */
module TitleBar {
  import opened Paths

  /** `" ".repeat(n)`. */
  function Spaces(n: nat): (r: String)
    ensures |r| == n && forall i :: 0 <= i < n ==> r[i] == ' '
  {
    if n == 0 then "" else Spaces(n - 1) + " "
  }

  /**
   * `title` sits at index `k` of `r`, everything around it is a space, and
   * the spaces after it number the spaces before it or one more.
   */
  predicate CenteredAt(r: String, title: String, k: nat)
  {
    k + |title| <= |r|
    && r[k..k + |title|] == title
    && (forall i :: 0 <= i < k ==> r[i] == ' ')
    && (forall i :: k + |title| <= i < |r| ==> r[i] == ' ')
    && k <= |r| - k - |title| <= k + 1
  }

  /**
   * `create_centered_title(title, width)` for a `u16` width: the bare
   * `" title "` when the panel is at most 4 wide or the title does not fit
   * in `width - 4` characters; otherwise the title centred in a string of
   * `width - 2` characters.
   */
  function CenteredTitle(title: String, width: nat): (r: String)
    requires width < 0x1_0000
    ensures width <= 4 || |title| >= width - 4 ==> r == " " + title + " "
    ensures width > 4 && |title| < width - 4 ==>
      |r| == width - 2 && exists k: nat :: CenteredAt(r, title, k)
  {
    if width <= 4 then " " + title + " "
    else
      var usable := width - 4;
      if |title| >= usable then " " + title + " "
      else
        var padding := usable - |title|;
        var left := padding / 2;
        var right := padding - left;
        var r := " " + Spaces(left) + title + Spaces(right) + " ";
        assert r == (" " + Spaces(left)) + title + (Spaces(right) + " ");
        assert CenteredAt(r, title, 1 + left);
        r
  }

  /** Any result is at least the title plus one space on each side, and never shorter than `width - 2`. */
  lemma CenteredTitleLength(title: String, width: nat)
    requires width < 0x1_0000
    ensures |CenteredTitle(title, width)| == Max(|title| + 2, width - 2)
  {
  }
}

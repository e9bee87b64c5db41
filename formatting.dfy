/**
 * The two pure pieces of the quick-selection command: the nickname a capture
 * is stored under, and the flags a radio choice hands to the host's select.
 */
module Formatting {
  import opened Outcomes

  /** A scene element as the host's selection query reports it: its path name. */
  type Element = string

  /** The bracketed range "[first : last]" that every nickname ends with. */
  function RangeTag(first: Element, last: Element): string
  {
    "[" + first + " : " + last + "]"
  }

  /**
   * The nickname a capture is stored under. Without an alias it is the bare
   * range tag (the brackets are kept); with one, the alias is kept as a prefix
   * and the range tag follows a single space.
   */
  function Nickname(alias: string, selection: seq<Element>): (nick: string)
    requires |selection| > 0
    ensures |nick| > 0 && nick[|nick| - 1] == ']'
    ensures alias == "" ==> nick == RangeTag(selection[0], selection[|selection| - 1])
    ensures alias != "" ==>
      |nick| > |alias| && nick[..|alias|] == alias && nick[|alias|] == ' ' &&
      nick[|alias| + 1..] == RangeTag(selection[0], selection[|selection| - 1])
  {
    var tag := RangeTag(selection[0], selection[|selection| - 1]);
    if alias == "" then tag else alias + " " + tag
  }

  /** Only the first and last captured elements reach the nickname. */
  lemma NicknameOnlySeesEnds(alias: string, s1: seq<Element>, s2: seq<Element>)
    requires |s1| > 0 && |s2| > 0
    requires s1[0] == s2[0] && s1[|s1| - 1] == s2[|s2| - 1]
    ensures Nickname(alias, s1) == Nickname(alias, s2)
  {
  }

  /**
   * The alias is never replaced: two captures of selections with the same
   * ends get the same nickname only when their labels are equal.
   */
  lemma NicknameDeterminesLabel(a1: string, a2: string, s1: seq<Element>, s2: seq<Element>)
    requires |s1| > 0 && |s2| > 0
    requires s1[0] == s2[0] && s1[|s1| - 1] == s2[|s2| - 1]
    ensures Nickname(a1, s1) == Nickname(a2, s2) <==> a1 == a2
  {
  }

  /** The two flags `cmds.select` receives: `add=` and `deselect=`. */
  datatype Flags = Flags(add: bool, deselect: bool)

  /**
   * The radio-button choice turned into select flags: 1 or less replaces the
   * selection, 2 adds to it, 3 removes from it. Any larger value leaves both
   * flags unassigned, which the command reports as an error.
   */
  function SelectFlags(radio: int): (r: Result<Flags>)
    ensures r.Ok? <==> radio <= 3
    ensures r.Err? ==> r.failure == UnknownModifier(radio)
    ensures r.Ok? ==> !(r.value.add && r.value.deselect)
    ensures r.Ok? ==> (r.value.add <==> radio == 2) && (r.value.deselect <==> radio == 3)
  {
    if radio <= 1 then Ok(Flags(false, false))
    else if radio == 2 then Ok(Flags(true, false))
    else if radio == 3 then Ok(Flags(false, true))
    else Err(UnknownModifier(radio))
  }

  /** The three buttons give three different modifiers; every value up to 1 means "replace". */
  lemma SelectFlagsDistinguishButtons(r1: int, r2: int)
    requires r1 <= 3 && r2 <= 3
    ensures SelectFlags(r1) == SelectFlags(r2) <==> (r1 <= 1 && r2 <= 1) || r1 == r2
  {
  }
}

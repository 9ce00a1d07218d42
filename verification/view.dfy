/**
 The integer part of `view` (src/lib.rs lines 75-103): the labels of the six
 points drawn on the canvas and the colour of the panel around them. The
 points' coordinates are floating point and are not part of this model; only
 the whole-number phase `count % 10` that feeds them is.
 */
module View {
  import opened Usize
  import opened Animation

  /** Number of points drawn: `num` ranges over `0..6`. */
  const POINTS: nat := 6

  /** Text colour of the panel. */
  datatype Colour = Purple | Gray

  /** What the integer part of one render shows. */
  datatype Frame = Frame(colour: Colour, readout: Usize, keys: seq<Usize>, phase: nat)

  /**
   The label of point `num`: `6 - num + count / 10`, evaluated in `usize`.
   Both steps stay inside the word: `6 - num` does not underflow because
   `num < 6`, and the sum does not overflow because `count / 10 <= MAX / 10`.
   */
  function Key(count: Usize, num: Usize): (k: Usize)
    requires num < POINTS
    ensures 1 + count / 10 <= k <= POINTS + count / 10
  {
    var base: Usize := POINTS - num;
    base + count / 10
  }

  /**
   The labels of all points, in drawing order (`(0..6).map(..).collect()`).
   They are consecutive and strictly descending: from `6 + count / 10` for
   the first point down to `1 + count / 10` for the last.
   */
  function Keys(count: Usize): (ks: seq<Usize>)
    ensures |ks| == POINTS
    ensures forall num :: 0 <= num < POINTS ==> ks[num] == Key(count, num)
    ensures ks[0] == POINTS + count / 10
    ensures ks[POINTS - 1] == 1 + count / 10
    ensures forall i :: 0 <= i < POINTS - 1 ==> ks[i] as int - ks[i + 1] as int == 1
    ensures forall i, j :: 0 <= i < j < POINTS ==> ks[j] < ks[i]
  {
    seq(POINTS, num requires 0 <= num < POINTS => Key(count, num))
  }

  /** The whole-number step within the decade, the integer input of a point's position. */
  function Phase(count: Usize): (p: nat)
    ensures p < 10
    ensures (count - p) % 10 == 0
  {
    count % 10
  }

  /** `if model.count > 4 {"purple"} else {"gray"}`. */
  function PanelColour(count: Usize): (c: Colour)
    ensures c == Purple <==> count > 4
  {
    if count > 4 then Purple else Gray
  }

  /** The CSS name the panel style is written with. */
  function ColourName(c: Colour): (name: string)
    ensures c == Purple ==> name == "purple"
    ensures c == Gray ==> name == "gray"
  {
    match c
    case Purple => "purple"
    case Gray => "gray"
  }

  /** The two colours are written with distinct names: the name determines the colour. */
  lemma ColourNamesDistinct(a: Colour, b: Colour)
    ensures ColourName(a) == ColourName(b) <==> a == b
  {
  }

  /** The integer content of `view` for a model. */
  function Render(m: Model): (f: Frame)
    ensures f.readout == m.count
    ensures |f.keys| == POINTS
    ensures forall num :: 0 <= num < POINTS ==> f.keys[num] == POINTS - num + m.count / 10
    ensures f.phase == m.count % 10 && f.phase < 10
    ensures f.colour == Purple <==> m.count > 4
  {
    Frame(PanelColour(m.count), m.count, Keys(m.count), Phase(m.count))
  }

  /** The labels shown are exactly the six consecutive numbers above `count / 10`. */
  lemma KeysRange(count: Usize)
    ensures forall k :: k in Keys(count) <==> 1 + count / 10 <= k <= POINTS + count / 10
  {
    var ks := Keys(count);
    forall k | 1 + count / 10 <= k <= POINTS + count / 10
      ensures k in ks
    {
      var num := POINTS + count / 10 - k;
      assert ks[num] == k;
    }
  }

  /** Two counts in the same decade show identical labels. */
  lemma KeysSameDecade(a: Usize, b: Usize)
    requires a / 10 == b / 10
    ensures Keys(a) == Keys(b)
  {
  }

  /** The labels differ between two counts by exactly the difference of their decades. */
  lemma KeysShift(a: Usize, b: Usize)
    ensures forall num :: 0 <= num < POINTS ==> (Keys(b)[num] as int) - (Keys(a)[num] as int) == (b / 10) as int - (a / 10) as int
  {
  }

  /**
   A tick that ends a decade (`10k + 9` to `10k + 10`) raises every label by
   exactly one; any other tick below `MAX` leaves the labels alone.
   */
  lemma TickKeys(m: Model)
    requires m.count < MAX
    ensures var next := Update(Tick, m).model.count;
      (Phase(m.count) == 9 ==> forall num :: 0 <= num < POINTS ==> Keys(next)[num] == Keys(m.count)[num] + 1)
      && (Phase(m.count) != 9 ==> Keys(next) == Keys(m.count))
  {
  }

  /** The wrap-around tick at `MAX` brings the labels back to `6, 5, .., 1`. */
  lemma WrapKeys(m: Model)
    requires m.count == MAX
    ensures forall num :: 0 <= num < POINTS ==> Keys(Update(Tick, m).model.count)[num] == POINTS - num
  {
  }

  /**
   The labels and the phase together determine the count: the last label
   minus one is the decade, and the phase is the step within it.
   */
  lemma CountFromFrame(m: Model)
    ensures m.count == 10 * (Render(m).keys[POINTS - 1] - 1) + Render(m).phase
  {
  }

  /** The colour switches exactly between 4 and 5. */
  lemma ColourBoundary()
    ensures PanelColour(4) == Gray && PanelColour(5) == Purple
    ensures ColourName(PanelColour(4)) == "gray" && ColourName(PanelColour(5)) == "purple"
  {
  }

  /** Once purple, the panel stays purple as the count grows. */
  lemma ColourMonotone(a: Usize, b: Usize)
    requires a <= b
    ensures PanelColour(a) == Purple ==> PanelColour(b) == Purple
    ensures PanelColour(b) == Gray ==> PanelColour(a) == Gray
  {
  }

  /**
   From mount, before the counter first wraps, the panel turns purple exactly
   once more than four ticks have been handled, whatever errors came between.
   */
  lemma ColourAfterTicks(msgs: seq<Msg>)
    requires Ticks(msgs) <= MAX
    ensures Render(Run(Init(), msgs)).colour == Purple <==> Ticks(msgs) > 4
  {
    CountFromInit(msgs);
  }
}

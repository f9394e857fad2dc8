/** The day switcher of `CurrentDatePicker.tsx`: two buttons and a heading. */
module DatePicker {
  import opened Time

  /** The previous button emits `selectedDate.plus({days: -1})`. */
  function Previous(selected: Day): (d: Day)
    ensures d == selected - 1
  {
    PlusDays(selected, -1)
  }

  /** The next button emits `selectedDate.plus({days: 1})`. */
  function Next(selected: Day): (d: Day)
    ensures d == selected + 1
  {
    PlusDays(selected, 1)
  }

  /** The heading: the ISO calendar date of the selected day. */
  function Heading(isoDate: Day -> string, selected: Day): string {
    isoDate(selected)
  }

  /** Previous then next, or next then previous, comes back to the same day. */
  lemma PreviousNextInverse(d: Day)
    ensures Next(Previous(d)) == d && Previous(Next(d)) == d
  {
  }

  /** n presses of next move the selection n days on. */
  lemma {:induction false} NextRepeated(d: Day, n: nat)
    ensures Repeat(d, n) == d + n
  {
    if n > 0 {
      NextRepeated(d, n - 1);
    }
  }

  function Repeat(d: Day, n: nat): Day {
    if n == 0 then d else Next(Repeat(d, n - 1))
  }

  /** The three days around a selection all have different headings. */
  lemma HeadingsDiffer(isoDate: Day -> string, d: Day)
    requires InjectiveDates(isoDate)
    ensures Heading(isoDate, Previous(d)) != Heading(isoDate, d)
    ensures Heading(isoDate, Next(d)) != Heading(isoDate, d)
  {
  }
}

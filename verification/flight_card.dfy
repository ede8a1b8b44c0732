/** One result card: its stop label, its refund badge and the booking
    button, which selects the card's flight in the store. */
module FlightCard {
  import opened Wrappers
  import opened BookingContext
  import Text

  /** `getStopText`. */
  function StopText(stops: nat): (text: string)
    ensures stops == 0 ==> text == "Non Stop"
    ensures stops == 1 ==> text == "1 Stop"
    ensures stops >= 2 ==> text == Text.NatToString(stops) + " Stops"
  {
    if stops == 0 then "Non Stop"
    else if stops == 1 then "1 Stop"
    else Text.NatToString(stops) + " Stops"
  }

  /** Different stop counts get different labels. */
  lemma StopTextInjective(m: nat, n: nat)
    requires StopText(m) == StopText(n)
    ensures m == n
  {
    if m >= 2 && n >= 2 {
      var a, b := Text.NatToString(m), Text.NatToString(n);
      assert (a + " Stops")[..|a + " Stops"| - 6] == a;
      assert (b + " Stops")[..|b + " Stops"| - 6] == b;
      Text.PrintedInjective(m, n);
    } else if m >= 2 || n >= 2 {
      var k := if m >= 2 then m else n;
      assert Text.IsDigit(Text.NatToString(k)[0]);
      assert StopText(k)[0] == Text.NatToString(k)[0];
    }
  }

  /** The refund badge. */
  function RefundLabel(refundable: bool): (text: string)
    ensures text == "Partially Refundable" <==> refundable
    ensures text == "Non Refundable" <==> !refundable
  {
    if refundable then "Partially Refundable" else "Non Refundable"
  }

  /** `handleBookFlight`: the store afterwards holds exactly the card's
      flight as the selection, and nothing else changes. */
  function BookFlight(s: BookingState, flight: FlightResult): (t: BookingState)
    ensures t.selectedFlight == Some(flight)
    ensures t.(selectedFlight := s.selectedFlight) == s
  {
    Reduce(s, SetSelectedFlight(flight))
  }

  /** Booking a second card replaces the first choice: only the last card
      booked counts. */
  lemma LastBookingWins(s: BookingState, first: FlightResult, second: FlightResult)
    ensures BookFlight(BookFlight(s, first), second) == BookFlight(s, second)
  {
  }
}

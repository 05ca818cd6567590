/**
 * The fixed lines of the Casagrande plasticity chart that both soil plotters
 * draw: the A-line PI = 0.73 (LL - 20), the U-line PI = 0.9 (LL - 8), the
 * liquid limits where the plotted lines start, the horizontal CL and ML lines
 * and the vertical markers at LL = 35 and LL = 50. All in real arithmetic.
 */
module Casagrande {

  /** `a_line(ll)`. */
  function ALine(ll: real): real {
    0.73 * (ll - 20.0)
  }

  /** `u_line(ll)`. */
  function ULine(ll: real): real {
    0.9 * (ll - 8.0)
  }

  /** The liquid limit at which the A-line has plasticity index `pi`: `pi / 0.73 + 20`. */
  function ALineAt(pi: real): (ll: real)
    ensures ALine(ll) == pi
  {
    pi / 0.73 + 20.0
  }

  /** The liquid limit at which the U-line has plasticity index `pi`: `pi / 0.9 + 8`. */
  function ULineAt(pi: real): (ll: real)
    ensures ULine(ll) == pi
  {
    pi / 0.9 + 8.0
  }

  /** Reading a liquid limit off a line and back gives it again. */
  lemma LineInverses(ll: real)
    ensures ALineAt(ALine(ll)) == ll
    ensures ULineAt(ULine(ll)) == ll
  {
  }

  /** Both lines rise with the liquid limit. */
  lemma LinesIncrease(a: real, b: real)
    requires a < b
    ensures ALine(a) < ALine(b) && ULine(a) < ULine(b)
  {
  }

  /** Where the plotted A-line starts: `(4 / 0.73) + 20`. */
  const AStart: real := 4.0 / 0.73 + 20.0

  /** Where the plotted U-line starts: `(7.5 / 0.9) + 8`. */
  const UStart: real := 7.5 / 0.9 + 8.0

  /** Where the CL line PI = 7.5 ends: `(7.5 / 0.73) + 20`. */
  const ClLineEnd: real := 7.5 / 0.73 + 20.0

  /** Where the ML line PI = 4 ends: `(4 / 0.73) + 20`. */
  const MlLineEnd: real := 4.0 / 0.73 + 20.0

  /**
   * The A-line starts where it equals 4 and the U-line where it equals 7.5;
   * the U-line starts to the left of the A-line.
   */
  lemma LineStarts()
    ensures AStart == ALineAt(4.0) && ALine(AStart) == 4.0
    ensures UStart == ULineAt(7.5) && ULine(UStart) == 7.5
    ensures UStart < AStart
  {
  }

  /** A horizontal line of the chart: constant PI from one liquid limit to another. */
  datatype Horizontal = Horizontal(pi: real, fromLl: real, toLl: real)

  /** The CL line: PI = 7.5 from LL = 0. */
  const ClLine: Horizontal := Horizontal(7.5, 0.0, ClLineEnd)

  /** The ML line: PI = 4 from LL = 0. */
  const MlLine: Horizontal := Horizontal(4.0, 0.0, MlLineEnd)

  /**
   * Both horizontal lines end exactly on the A-line, the ML line where the
   * plotted A-line starts, and the CL line further to the right.
   */
  lemma HorizontalLinesEndOnALine()
    ensures ALine(ClLine.toLl) == ClLine.pi
    ensures ALine(MlLine.toLl) == MlLine.pi
    ensures MlLine.toLl == AStart
    ensures MlLine.toLl < ClLine.toLl
  {
  }

  /** A vertical marker of the chart: at one liquid limit, from one PI to another. */
  datatype Vertical = Vertical(ll: real, fromPi: real, toPi: real)

  /** The LL = 35 marker, from the A-line up to the U-line. */
  const Marker35: Vertical := Vertical(35.0, ALine(35.0), ULine(35.0))

  /** The LL = 50 marker, from PI = 0 up to the U-line. */
  const Marker50: Vertical := Vertical(50.0, 0.0, ULine(50.0))

  /** The LL = 35 marker runs from 10.95 to 24.3 and the LL = 50 marker from 0 to 37.8; both point upwards. */
  lemma Markers()
    ensures Marker35.fromPi == 10.95 && Marker35.toPi == 24.3
    ensures Marker35.fromPi < Marker35.toPi
    ensures Marker50.fromPi == 0.0 && Marker50.toPi == 37.8
    ensures Marker50.fromPi < Marker50.toPi
  {
  }

  /**
   * The U-line lies above the A-line exactly for liquid limits above -7.4 / 0.17,
   * so over the whole chart (LL >= 0).
   */
  lemma ULineAboveALine(ll: real)
    ensures ULine(ll) > ALine(ll) <==> ll > -7.4 / 0.17
    ensures ll >= 0.0 ==> ULine(ll) > ALine(ll)
  {
  }
}

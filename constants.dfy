/** The appliance states, the length of a day and the valid day range. */
module Constants {

  /** State of a plain appliance. */
  datatype ApplianceState = On | Off

  /** State of an appliance behind an energy-saving device: SaverOff is a manual
      switch-off, AutoOff a switch-off triggered by the device. */
  datatype SaverState = SaverOn | SaverOff | AutoOff

  /** Minutes in one day; also the timestamp of the end-of-day sentinel. */
  const MAX_IN_PERIOD: int := 1440

  /** Days are numbered from 1 to 365. */
  const YEAR_MIN_DAY: int := 1
  const YEAR_MAX_DAY: int := 365
}

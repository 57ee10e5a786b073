/** The unit in which devices are addressed. */
module Sectors {
  const SECTOR := 512
}

/** The return codes of zookeeper.h that the modelled code tells apart. */
module ReturnCodes {
  const ZOK := 0
  const ZSYSTEMERROR := -1
  const ZCONNECTIONLOSS := -4
  const ZNONODE := -101
  const ZNODEEXISTS := -110
  const ZNOTEMPTY := -111
}

/** The special keys under which the MQ library reports published values (mqmetric/discover.go). */
module MetricKeys {
  const QMGR_MAP_KEY := "@self"
  const NATIVE_HA_PREFIX := "@NATIVEHA@"
}

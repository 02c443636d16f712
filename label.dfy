/** The key-value pair of the OpenTelemetry label package that both pipelines build. */
module Label {
  /** `label.String(key, value)`. */
  datatype KeyValue = KeyValue(key: string, value: string)
}

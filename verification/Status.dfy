/** Result codes of the library (src/include/sensact/sensact.h). */
module Status {
  const SA_OK := 0
  const SA_ERROR := 1
}

/** The limits set at the top of `utils.py`. */
module Config {
  /** `MAX_RETRIES`: the number of attempts of each retry loop. */
  const MaxRetries: nat := 3
  /** `MAX_CONTENT_LENGTH`: the longest article text kept before it is cut. */
  const MaxContentLength: nat := 50000
}

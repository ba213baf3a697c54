/**
 * Rules the two chat pages share: when a submit is taken, when the view counts as
 * scrolled to the bottom, and the abort controller.
 */
module PageRules {
  import opened Text

  /** An `AbortController`, seen through whether `abort()` has been called on it. */
  datatype Controller = Controller(aborted: bool)

  /** `const trimmed = input.trim(); if (!trimmed || isStreaming) return` lets the submit
      through. */
  predicate AcceptsSubmit(input: string, streaming: bool) {
    Trim(input) != "" && !streaming
  }

  /** `target.scrollTop + target.clientHeight >= target.scrollHeight - threshold`. */
  predicate AtBottom(scrollTop: real, clientHeight: real, scrollHeight: real, threshold: real) {
    scrollTop + clientHeight >= scrollHeight - threshold
  }
}

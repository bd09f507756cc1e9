/** The reason codes the official command trusts and the bootstrap lists; the two lists are the same. */
module StatusCodes {
  import opened Common
  import opened Text
  import opened Dumping
  import opened Dicts
  import opened Status

  const REASON_CODES: set<Str> := {
    K("accepted_m4_snapshot_invalid"),
    K("approved_commit_mismatch"),
    K("argument_error"),
    K("data_directory_invalid"),
    K("dirty_worktree"),
    K("environment_not_enabled"),
    K("execution_failed"),
    K("execution_not_available"),
    K("git_remote_invalid"),
    K("project_root_invalid"),
    K("remote_main_mismatch"),
    K("review_rejected"),
    K("result_contract_failed"),
    K("result_store_failed"),
    K("runtime_mismatch"),
    K("shard_set_invalid"),
    K("source_binding_failed"),
    K("terminal_capture_failed"),
    K("terminal_output_detected"),
    K("unexpected_failure"),
    K("unpushed_main"),
    K("verification_failed")
  }

  lemma ReasonCodesAreCodes()
    ensures Codes(REASON_CODES)
  {
  }

  /** With the real list: accepted lines are the emitted lines. */
  lemma Agreement(py: Python, payload: Bytes, error: bool, code: int)
    requires py.rule.Settles() && py.limits.Usable()
    ensures Validate(py, REASON_CODES, Some(payload), Some(error), Some(code)) == Accepted
      <==> |payload| <= MAX_STATUS_BYTES && Emitted(py.limits, REASON_CODES, payload, error, code)
  {
    ReasonCodesAreCodes();
    AcceptedIffEmitted(py, REASON_CODES, payload, error, code);
  }
}

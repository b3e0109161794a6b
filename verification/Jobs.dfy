/** The states a job record goes through. */
module Jobs {

  datatype JobState = Pending | Running | Transferred | Complete | Failed | Cancelled {
    predicate Terminal() { Complete? || Failed? || Cancelled? }
  }
}

/** What posts and reels share: the moderation status, the transcoding status, and when the public sees them. */
module Publication {

  datatype Status = PendingReview | Published | Rejected

  datatype ProcessingStatus = Uploaded | Processing | Ready | Failed

  /** The `published_objects` managers; `processing` means something for reels only. */
  predicate Public(status: Status, deleted: bool, isReel: bool, processing: ProcessingStatus) {
    status.Published? && !deleted && (isReel ==> processing.Ready?)
  }
}

/** The Kalman filter as the tracker uses it: over boxes, and only on beliefs that are healthy,
    so that no update can fail. */
module XyahFilter {
  import opened KalmanFilter
  import opened Boxes
  import opened TrackerSpec

  type Estimate = b: Belief | HealthyBelief(b)
    witness (InitiateIsHealthy([0.0, 0.0, 0.0, 1.0]); Initiate([0.0, 0.0, 0.0, 1.0]))

  function InitiateBox(box: BoundingBox): Estimate {
    InitiateIsHealthy(ToXyah(box));
    Initiate(ToXyah(box))
  }

  function PredictEstimate(b: Estimate): Estimate {
    PredictStaysHealthy(b);
    Predict(b)
  }

  /** The update of a healthy estimate solves a regular system and is healthy again. */
  function UpdateWithBox(b: Estimate, box: BoundingBox): Estimate {
    CorrectIsSound(b, ToXyah(box));
    Correct(b, ToXyah(box))
  }

  /** So an update never meets a singular system, and moves the estimate soundly. */
  lemma UpdatesAreSound(b: Estimate, box: BoundingBox)
    ensures SoundUpdate(b, MeasurementNoise(b.mean), ToXyah(box), UpdateWithBox(b, box))
  {
    CorrectIsSound(b, ToXyah(box));
  }

  function EstimatedBox(b: Estimate): BoundingBox {
    ToBox(b.mean)
  }

  function Xyah(): Filtering<Estimate> {
    Filtering(InitiateBox, PredictEstimate, UpdateWithBox, EstimatedBox)
  }
}

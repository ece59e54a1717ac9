/** The two message shapes the worker handles. The `domain` package that
    declares them is not part of this model; only the fields the core reads appear. */
module Domain {

  /** The job published by the upload service: `{"job_id": …, "image_url": …}`. */
  datatype JobMessage = JobMessage(jobID: string, imageURL: string)

  /** One prediction object of the detection service, passed through uninterpreted. */
  datatype Prediction = Prediction(raw: string)

  /** The detection service's answer: `{"predictions": [...]}`, in the service's order. */
  datatype RoboflowResponse = RoboflowResponse(predictions: seq<Prediction>)
}

/** Records that flow through the novelty-relevance recommender: catalog tracks,
    listening-history tracks, the output recommendations and the error outcomes. */
module Catalog {

  /** A feature vector: one row of a feature block, as reals. */
  type Vector = seq<real>

  /** The identity columns copied into every recommendation unchanged; the
      recommender never looks inside them. */
  datatype Identity = Identity(
    trackId: string,
    name: string,
    artist: string,
    spotifyPreviewUrl: string,
    year: int,
    tags: string)

  /** The seven audio features, in the order the recommender lists them. */
  datatype AudioFeatures = AudioFeatures(
    danceability: real,
    energy: real,
    speechiness: real,
    instrumentalness: real,
    liveness: real,
    valence: real,
    tempoScaled: real)
  {
    /** The features as a vector, in the fixed order above. */
    function AsVector(): (v: Vector)
      ensures |v| == 7
      ensures v[0] == danceability && v[1] == energy && v[2] == speechiness
      ensures v[3] == instrumentalness && v[4] == liveness && v[5] == valence
      ensures v[6] == tempoScaled
    {
      [danceability, energy, speechiness, instrumentalness, liveness, valence, tempoScaled]
    }
  }

  /** A track of the catalog: identity, the count-vectorised tag columns and the
      audio features. */
  datatype Track = Track(identity: Identity, tagVector: Vector, audio: AudioFeatures)

  /** A track of the listener's history; the play count orders the history for
      display and is never read by the recommender. */
  datatype HistoryTrack = HistoryTrack(track: Track, playcount: nat)

  /** One output row: the identity plus the three derived scores. */
  datatype Recommendation = Recommendation(
    identity: Identity,
    relevance: real,
    novelty: real,
    nrScore: real)

  /** Why a call produces no recommendations. */
  datatype Error =
    | InvalidAlpha        // alpha outside [0.0, 1.0]
    | EmptyCatalog        // no catalog rows to compare
    | EmptyHistory        // no history rows to compare against
    | NoTagFeatures       // a tag block without columns
    | DimensionMismatch   // catalog and history tag blocks of different widths

  datatype Result<T> = Ok(value: T) | Err(error: Error)
}

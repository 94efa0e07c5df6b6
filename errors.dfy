/** The error enums of the three crates (identity-core, attestors, ipfs-client). */
module IdentityErrors {

  datatype IdentityError =
    | InvalidDid(message: string)
    | InvalidCredential(message: string)
    | InvalidPresentation(message: string)
    | CryptoError(message: string)
    | KeyGenerationError(message: string)
    | SignatureError(message: string)
    | VerificationError(message: string)
    | SerializationError(message: string)
    | EncodingError(message: string)
    | NetworkError(message: string)
    | StorageError(message: string)
    | NotFound(message: string)
    | AlreadyExists(message: string)
    | PermissionDenied(message: string)
    | ConfigError(message: string)
  {
    /** The `Display` text that `thiserror` derives from the `#[error(...)]` attributes. */
    function ToString(): string {
      match this
      case InvalidDid(m) => "Invalid DID format: " + m
      case InvalidCredential(m) => "Invalid credential: " + m
      case InvalidPresentation(m) => "Invalid presentation: " + m
      case CryptoError(m) => "Cryptographic error: " + m
      case KeyGenerationError(m) => "Key generation error: " + m
      case SignatureError(m) => "Signature error: " + m
      case VerificationError(m) => "Verification error: " + m
      case SerializationError(m) => "Serialization error: " + m
      case EncodingError(m) => "Encoding error: " + m
      case NetworkError(m) => "Network error: " + m
      case StorageError(m) => "Storage error: " + m
      case NotFound(m) => "Not found: " + m
      case AlreadyExists(m) => "Already exists: " + m
      case PermissionDenied(m) => "Permission denied: " + m
      case ConfigError(m) => "Configuration error: " + m
    }
  }
}

module AttestorErrors {

  datatype AttestorError =
    | ThresholdNotMet(message: string)
    | InvalidSignature(message: string)
    | KeyGenerationError(message: string)
    | VerificationError(message: string)
    | AttestationError(message: string)
    | ConfigError(message: string)
    | NetworkError(message: string)
    | SerializationError(message: string)
    | IdentityError(message: string)
    | CryptoError(message: string)
    | NotFound(message: string)
    | PermissionDenied(message: string)
    | InvalidRequest(message: string)
    | Timeout(message: string)
}

module IpfsErrors {

  datatype IpfsError =
    | ConnectionError(message: string)
    | StorageError(message: string)
    | RetrievalError(message: string)
    | SerializationError(message: string)
    | TimeoutError(message: string)
    | NotFound(message: string)
    | InvalidContent(message: string)
    | CacheError(message: string)
    | ConfigError(message: string)
    | PermissionDenied(message: string)
    | QuotaExceeded(message: string)
    | NodeUnavailable(message: string)
    | IntegrityError(message: string)
  {
    /** The `Display` text that `thiserror` derives from the `#[error(...)]` attributes. */
    function ToString(): string {
      match this
      case ConnectionError(m) => "Connection error: " + m
      case StorageError(m) => "Storage error: " + m
      case RetrievalError(m) => "Retrieval error: " + m
      case SerializationError(m) => "Serialization error: " + m
      case TimeoutError(m) => "Network timeout: " + m
      case NotFound(m) => "Content not found: " + m
      case InvalidContent(m) => "Invalid content: " + m
      case CacheError(m) => "Cache error: " + m
      case ConfigError(m) => "Configuration error: " + m
      case PermissionDenied(m) => "Permission denied: " + m
      case QuotaExceeded(m) => "Quota exceeded: " + m
      case NodeUnavailable(m) => "Node unavailable: " + m
      case IntegrityError(m) => "Integrity check failed: " + m
    }
  }
}
